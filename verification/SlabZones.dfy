/** The zones of the slab allocator (src/slab.c:393-460, 487-853): each zone is cut into chunks of one size, and the
    zones of a size that still have a chunk to give are on that size's list. */
module SlabZones {
  import opened Align
  import opened Basics
  import B = Bits
  import opened Lists
  import opened SlabPages
  import opened Stores
  import T = Tiling
  import W = Waiting

  const NZONES: nat := 72                 // RT_SLAB_NZONES
  const RELEASE_THRESH: nat := 2          // ZONE_RELEASE_THRESH
  const ZALLOC_ZONE_LIMIT: nat := 16384
  const ZALLOC_MIN_ZONE_SIZE: nat := 32768
  const ZALLOC_MAX_ZONE_SIZE: nat := 131072

  // ---------------------------------------------------------------- the size of a zone

  /** The zone size for a heap of total bytes. */
  function ZoneSizeOf(total: nat): nat {
    if total / 1024 <= 65536 then 32768 else if total / 1024 <= 131072 then 65536 else 131072
  }

  /** The limit below which requests go to zones. */
  function LimitOf(total: nat): nat {
    if ZoneSizeOf(total) == 32768 then 8192 else 16384
  }

  /** The loop of rt_slab_init. */
  method ZoneSizes(total: nat) returns (zoneSize: nat, limit: nat)
    ensures zoneSize == ZoneSizeOf(total) && limit == LimitOf(total) && 4 * limit <= zoneSize
    ensures zoneSize == 32768 || zoneSize == 65536 || zoneSize == 131072
    ensures (zoneSize == 131072 || 2 * zoneSize >= total / 1024) && (zoneSize == 32768 || zoneSize < total / 1024)
    ensures limit == if zoneSize / 4 > 16384 then 16384 else zoneSize / 4
  {
    zoneSize := ZALLOC_MIN_ZONE_SIZE;
    while zoneSize < ZALLOC_MAX_ZONE_SIZE && 2 * zoneSize < total / 1024
      invariant zoneSize == 32768 || (zoneSize == 65536 && 65536 < total / 1024) || (zoneSize == 131072 && 131072 < total / 1024)
      decreases ZALLOC_MAX_ZONE_SIZE - zoneSize
    {
      zoneSize := 2 * zoneSize;
    }
    limit := zoneSize / 4;
    if limit > ZALLOC_ZONE_LIMIT {
      limit := ZALLOC_ZONE_LIMIT;
    }
  }

  /** The pages rt_slab_init finds in a region of bytes from begin on, with the slab object, of so many bytes, in front:
      the address of the first and their number. It refuses exactly the regions without room for one. */
  function InitPages(begin: nat, bytes: nat, own: nat, align: nat, pageSize: nat): (r: Option<(nat, nat)>)
    requires align > 0 && pageSize > 0
    ensures var a := AlignUp(AlignUp(begin, align) + own, pageSize);
      && (r.None? <==> begin + bytes < a + pageSize)
      && (r.Some? ==> r.value.0 == a && r.value.1 > 0 && a + r.value.1 * pageSize == AlignDown(begin + bytes, pageSize))
  {
    hide AlignUp, AlignDown, Multiple;
    var begin0, end0 := AlignUp(AlignUp(begin, align) + own, pageSize), AlignDown(begin + bytes, pageSize);
    WholeBetween(begin0, end0, begin + bytes, pageSize);
    if begin0 >= end0 then None else Some((begin0, (end0 - begin0) / pageSize))
  }

  lemma WholeBetween(a: nat, b: nat, end: nat, pageSize: nat)
    requires Multiple(a, pageSize) && Multiple(b, pageSize) && b <= end < b + pageSize
    ensures a >= b <==> end < a + pageSize
    ensures a < b ==> (b - a) / pageSize > 0 && (b - a) / pageSize * pageSize == b - a
  {
    AddMod(b, a, pageSize);
    if a < b && b < a + pageSize {
      DivModUnique(b - a, pageSize, 0, b - a);
    }
    if a < b {
      MulGrows((b - a) / pageSize, pageSize);
    }
  }

  /** A zone is a whole number of pages if the smallest one is. */
  lemma WholePages(total: nat, pageSize: nat)
    requires Multiple(ZALLOC_MIN_ZONE_SIZE, pageSize)
    ensures ZoneSizeOf(total) / pageSize * pageSize == ZoneSizeOf(total)
  {
    AddMod(32768, 32768, pageSize);
    AddMod(65536, 65536, pageSize);
  }

  // ---------------------------------------------------------------- size classes

  /** zoneindex for a request below the zone limit: the index, and the chunk size the request becomes. */
  function ZoneIndex(n: nat): (int, nat) {
    if n < 128 then (AlignUp(n, 8) / 8 - 1, AlignUp(n, 8))
    else if n < 256 then (AlignUp(n, 16) / 16 + 7, AlignUp(n, 16))
    else if n < 512 then (AlignUp(n, 32) / 32 + 15, AlignUp(n, 32))
    else if n < 1024 then (AlignUp(n, 64) / 64 + 23, AlignUp(n, 64))
    else if n < 2048 then (AlignUp(n, 128) / 128 + 31, AlignUp(n, 128))
    else if n < 4096 then (AlignUp(n, 256) / 256 + 39, AlignUp(n, 256))
    else if n < 8192 then (AlignUp(n, 512) / 512 + 47, AlignUp(n, 512))
    else if n < 16384 then (AlignUp(n, 1024) / 1024 + 55, AlignUp(n, 1024))
    else (0, n)
  }

  /** The chunk size that belongs to an index. */
  function ChunkSize(i: nat): nat {
    if i < 16 then (i + 1) * 8
    else if i < 24 then (i - 7) * 16
    else if i < 32 then (i - 15) * 32
    else if i < 40 then (i - 23) * 64
    else if i < 48 then (i - 31) * 128
    else if i < 56 then (i - 39) * 256
    else if i < 64 then (i - 47) * 512
    else (i - 55) * 1024
  }

  /** The index is in range and determines the chunk size; the chunk holds the request and wastes less than 8 bytes or
      an eighth of the request. */
  lemma ZoneIndexRight(n: nat)
    requires 0 < n < 16384
    ensures var (i, size) := ZoneIndex(n);
            0 <= i < NZONES && size == ChunkSize(i) && n <= size && (size - n < 8 || 8 * (size - n) < n)
  {
    hide AlignUp;
    if n < 128 {
      UpIs(n, 8);
    } else if n < 256 {
      UpIs(n, 16);
    } else if n < 512 {
      UpIs(n, 32);
    } else if n < 1024 {
      UpIs(n, 64);
    } else if n < 2048 {
      UpIs(n, 128);
    } else if n < 4096 {
      UpIs(n, 256);
    } else if n < 8192 {
      UpIs(n, 512);
    } else {
      UpIs(n, 1024);
    }
  }

  /** No smaller chunk size holds the request. */
  lemma ZoneIndexLeast(n: nat, j: nat)
    requires 0 < n < 16384 && j < NZONES && n <= ChunkSize(j)
    ensures ZoneIndex(n).1 <= ChunkSize(j)
  {
    hide AlignUp, ChunkSize;
    ZoneIndexRight(n);
    var (i, size) := ZoneIndex(n);
    if j < i {
      ClassBelow(n);
      Classes(j, i - 1);
    } else {
      Classes(i, j);
    }
  }

  lemma Classes(i: nat, j: nat)
    requires i <= j < NZONES
    ensures ChunkSize(i) <= ChunkSize(j)
  {
  }

  /** The next smaller chunk is too small. */
  lemma ClassBelow(n: nat)
    requires 0 < n < 16384
    ensures ZoneIndex(n).0 > 0 ==> ChunkSize(ZoneIndex(n).0 - 1) < n
  {
    hide AlignUp;
    ZoneIndexRight(n);
    if n < 128 {
      UpIs(n, 8);
    } else if n < 256 {
      UpIs(n, 16);
    } else if n < 512 {
      UpIs(n, 32);
    } else if n < 1024 {
      UpIs(n, 64);
    } else if n < 2048 {
      UpIs(n, 128);
    } else if n < 4096 {
      UpIs(n, 256);
    } else if n < 8192 {
      UpIs(n, 512);
    } else {
      UpIs(n, 1024);
    }
  }

  lemma UpIs(n: nat, a: nat)
    requires a > 0
    ensures n <= AlignUp(n, a) < n + a && AlignUp(n, a) == AlignUp(n, a) / a * a
  {
    var q := (n + a - 1) / a;
    assert n + a - 1 == q * a + (n + a - 1) % a;
    DivModUnique(q * a, a, q, 0);
  }

  /** Different indices have different chunk sizes, so a zone's class and its chunk size are the same thing. */
  lemma ChunkSizesDiffer(i: nat, j: nat)
    requires i < j < NZONES
    ensures 8 <= ChunkSize(i) < ChunkSize(j) <= 16384
  {
  }

  /** The test the code uses for a power of two. */
  lemma {:induction false} PowerTest(x: nat)
    requires x > 0
    ensures PowerOfTwo(x) <==> x == B.Pow2(B.Ctz(x))
  {
    if x % 2 == 1 {
      OrOdd(x);
    } else {
      PowerTest(x / 2);
      assert (x - 1) / 2 == x / 2 - 1 && (x - 1) % 2 == 1;
      assert B.Or(x, x - 1) == 2 * B.Or(x / 2, x / 2 - 1) + 1;
    }
  }

  lemma OrOdd(x: nat)
    requires x % 2 == 1
    ensures B.Or(x, x - 1) == x
  {
    assert (x - 1) / 2 == x / 2;
    OrSelf(x / 2);
  }

  lemma {:induction false} OrSelf(x: nat)
    ensures B.Or(x, x) == x
  {
    if x > 0 {
      OrSelf(x / 2);
    }
  }

  // ---------------------------------------------------------------- one zone

  /** The test (size | (size - 1)) + 1 == (size << 1). */
  predicate PowerOfTwo(size: nat) {
    size > 0 && B.Or(size, size - 1) + 1 == 2 * size
  }

  /** Where the chunks of a zone start: behind the header, and for a power of two at a multiple of it. */
  function Offset(header: nat, size: nat): (r: nat)
    requires size > 0
    ensures header <= r && (PowerOfTwo(size) ==> Multiple(r, size))
  {
    if PowerOfTwo(size) then AlignUp(header, size) else AlignUp(header, 8)
  }

  /** The header of a zone; chunks is z_freechunk, each chunk named by its number. */
  datatype Zone = Zone(cls: nat, size: nat, off: nat, nmax: nat, uindex: nat, nfree: nat, chunks: seq<nat>)

  /** The chunks lie behind the header, where their size asks them to start, as many as fit; z_nfree counts the chunks never used and the chunks given back. */
  ghost predicate ZoneOk(z: Zone, header: nat, bytes: nat) {
    && z.cls < NZONES && z.size == ChunkSize(z.cls) && z.off == Offset(header, z.size)
    && z.off + z.nmax * z.size <= bytes < z.off + (z.nmax + 1) * z.size
    && z.uindex < z.nmax && z.nfree == (z.nmax - 1 - z.uindex) + |z.chunks|
    && NoRepeats(z.chunks) && forall c :: c in z.chunks ==> c <= z.uindex
  }

  ghost predicate Live(z: Zone, i: nat) {
    i <= z.uindex && i !in z.chunks
  }

  function LiveChunks(z: Zone): set<nat> {
    set i | i in UpBelow(z.uindex + 1) && i !in z.chunks
  }

  lemma ChunkCount(z: Zone, header: nat, bytes: nat)
    requires ZoneOk(z, header, bytes)
    ensures |z.chunks| <= z.uindex + 1 && z.nfree <= z.nmax
    ensures |LiveChunks(z)| == z.nmax - z.nfree
  {
    var all, given := UpBelow(z.uindex + 1), set c | c in z.chunks;
    W.CountDistinct(z.chunks, given);
    assert all == LiveChunks(z) + given;
    assert LiveChunks(z) !! given;
  }

  function UpBelow(n: nat): (r: set<nat>)
    ensures |r| == n && forall i :: i in r <==> 0 <= i < n
  {
    if n == 0 then {} else UpBelow(n - 1) + {n - 1}
  }

  /** A chunk is taken: first those never used, then those given back. */
  function TakeChunk(z: Zone): (Zone, nat)
    requires z.nfree > 0 && (z.uindex + 1 == z.nmax ==> z.chunks != [])
  {
    if z.uindex + 1 != z.nmax then (z.(nfree := z.nfree - 1, uindex := z.uindex + 1), z.uindex + 1)
    else (z.(nfree := z.nfree - 1, chunks := z.chunks[1..]), z.chunks[0])
  }

  lemma TakeOk(z: Zone, header: nat, bytes: nat)
    requires ZoneOk(z, header, bytes) && z.nfree > 0
    ensures z.uindex + 1 == z.nmax ==> z.chunks != []
    ensures var (z', i) := TakeChunk(z);
      && ZoneOk(z', header, bytes) && i < z.nmax && !Live(z, i) && Live(z', i) && (forall j: nat :: j != i ==> (Live(z', j) <==> Live(z, j)))
      && z'.nfree == z.nfree - 1 && z'.cls == z.cls && z'.size == z.size && z'.off == z.off && z'.nmax == z.nmax
  {
    if z.uindex + 1 == z.nmax {
      WithoutFirst(z.chunks);
      assert z.chunks == [z.chunks[0]] + z.chunks[1..];
    }
  }

  function GiveChunk(z: Zone, i: nat): Zone {
    z.(nfree := z.nfree + 1, chunks := [i] + z.chunks)
  }

  lemma GiveOk(z: Zone, header: nat, bytes: nat, i: nat)
    requires ZoneOk(z, header, bytes) && Live(z, i)
    ensures ZoneOk(GiveChunk(z, i), header, bytes) && !Live(GiveChunk(z, i), i)
    ensures forall j: nat :: j != i ==> (Live(GiveChunk(z, i), j) <==> Live(z, j))
  {
    PrependNoRepeats(i, z.chunks);
  }

  /** Chunks are handed out in address order first, and then the one given back last. */
  lemma TakeMeans(z: Zone, header: nat, bytes: nat)
    requires ZoneOk(z, header, bytes) && z.nfree > 0
    ensures z.uindex + 1 == z.nmax ==> z.chunks != []
    ensures var i := TakeChunk(z).1;
      if z.uindex + 1 < z.nmax then i == z.uindex + 1 && forall j: nat :: Live(z, j) || j in z.chunks ==> j < i
      else i == z.chunks[0]
  {
    TakeOk(z, header, bytes);
  }

  /** In a zone with no chunk that was never used, a chunk given back is the next to be handed out, and leaves no trace. */
  lemma GiveThenTake(z: Zone, i: nat)
    requires z.uindex + 1 == z.nmax
    ensures TakeChunk(GiveChunk(z, i)) == (z, i)
  {
    assert GiveChunk(z, i).chunks[1..] == z.chunks;
  }

  function ChunksIn(room: nat, size: nat): nat
    requires size > 0
  {
    room / size
  }

  /** A zone is cut into chunks, the first of which is handed out at once. */
  function NewZone(cls: nat, size: nat, header: nat, bytes: nat): Zone
    requires size > 0 && Offset(header, size) + 2 * size <= bytes
  {
    hide Offset, ChunksIn;
    var off := Offset(header, size);
    var nmax := ChunksIn(bytes - off, size);
    Zone(cls, size, off, nmax, 0, if nmax > 0 then nmax - 1 else 0, [])
  }

  lemma NewZoneOk(cls: nat, header: nat, bytes: nat)
    requires cls < NZONES && ChunkSize(cls) > 0 && Offset(header, ChunkSize(cls)) + 2 * ChunkSize(cls) <= bytes
    ensures var z := NewZone(cls, ChunkSize(cls), header, bytes);
            ZoneOk(z, header, bytes) && z.cls == cls && z.nfree > 0 && z.nmax >= 2 && Live(z, 0) && forall j: nat :: j != 0 ==> !Live(z, j)
  {
    hide AlignUp, ChunkSize;
    var size, off := ChunkSize(cls), Offset(header, ChunkSize(cls));
    Quotient(bytes - off, size);
  }

  lemma NewFields(cls: nat, size: nat, header: nat, bytes: nat)
    requires size > 0 && Offset(header, size) + 2 * size <= bytes
    ensures var z := NewZone(cls, size, header, bytes); z.uindex == 0 && z.chunks == [] && z.size == size
  {
    hide Offset, ChunksIn;
  }

  lemma Quotient(x: nat, a: nat)
    requires a > 0 && x >= 2 * a
    ensures x / a >= 2 && (x / a) * a <= x < (x / a + 1) * a
  {
    if x / a < 2 {
      MulGrows(2 - x / a, a);
    }
  }

  /** The limits rt_slab_init sets leave room for two chunks in every zone: a chunk is at most a quarter of it. */
  lemma TwoChunksFit(header: nat, size: nat, bytes: nat)
    requires 8 <= size && 4 * size <= bytes && 0 < header <= 64 && 32768 <= bytes
    ensures Offset(header, size) + 2 * size <= bytes
  {
  }

  /** A chunk of power-of-two size starts at a multiple of that from the start of its zone. */
  lemma WithinZone(header: nat, size: nat, i: nat)
    requires PowerOfTwo(size)
    ensures Multiple(Offset(header, size) + i * size, size)
  {
    hide Offset;
    MulMod(i, size);
    AddMod(Offset(header, size), i * size, size);
  }

  /** A multiple of a added to an address changes nothing about whether it is one. */
  lemma AlignedAlike(x: int, d: int, a: int)
    requires Multiple(d, a)
    ensures Multiple(x + d, a) <==> Multiple(x, a)
  {
    if Multiple(x + d, a) {
      AddMod(x + d, d, a);
    }
    if Multiple(x, a) {
      AddMod(x, d, a);
    }
  }

  lemma {:induction false} TimesMultiple(z: nat, n: nat, a: nat)
    requires Multiple(n, a)
    ensures Multiple(z * n, a)
  {
    if z > 0 {
      TimesMultiple(z - 1, n, a);
      AddMod((z - 1) * n, n, a);
      assert (z - 1) * n + n == z * n;
    }
  }

  lemma {:induction false} PowerOf(k: nat)
    ensures PowerOfTwo(B.Pow2(k))
  {
    if k > 0 {
      PowerOf(k - 1);
      var x := B.Pow2(k);
      assert x / 2 == B.Pow2(k - 1) && (x - 1) / 2 == x / 2 - 1 && (x - 1) % 2 == 1;
      assert B.Or(x, x - 1) == 2 * B.Or(x / 2, x / 2 - 1) + 1;
    }
  }

  /** A request for a power of two below 16 KiB gets a chunk of that size, or of 8 bytes. */
  lemma PowerRequest(n: nat)
    requires PowerOfTwo(n) && n < 16384
    ensures var size := ZoneIndex(n).1; PowerOfTwo(size) && Multiple(size, n) && (n >= 8 ==> size == n)
  {
    PowerTest(n);
    assert B.Pow2(14) == 16384;
    B.CtzBound(n, 14);
    PowerOf(3);
    assert B.Pow2(3) == 8;
    hide PowerOfTwo;
    SmallPowers(n);
    hide B.Pow2, B.Ctz;
  }

  /** The powers of two below 16 KiB. */
  lemma SmallPowers(n: nat)
    requires n > 0 && n == B.Pow2(B.Ctz(n)) && B.Ctz(n) < 14
    ensures n in {1, 2, 4, 8, 16, 32, 64, 128, 256, 512, 1024, 2048, 4096, 8192}
  {
    hide B.Pow2, B.Ctz;
    var k := B.Ctz(n);
    if k < 7 {
      FirstPowers(k);
    } else {
      FirstPowers(k - 7);
      PowerSum(k - 7, 7);
      FirstPowers(6);
      PowerSum(6, 1);
      FirstPowers(1);
    }
  }

  lemma FirstPowers(k: nat)
    requires k < 7
    ensures B.Pow2(k) == if k == 0 then 1 else if k == 1 then 2 else if k == 2 then 4 else if k == 3 then 8 else if k == 4 then 16
                         else if k == 5 then 32 else 64
  {
  }

  lemma {:induction false} PowerSum(i: nat, j: nat)
    ensures B.Pow2(i + j) == B.Pow2(i) * B.Pow2(j)
  {
    if i > 0 {
      PowerSum(i - 1, j);
    }
  }

  // ---------------------------------------------------------------- the lists of zones

  /** List c holds exactly the zones of class c that have a chunk to give, and no more than one that is wholly free. */
  ghost predicate ListOk(zones: map<int, Zone>, list: seq<int>, c: nat) {
    && NoRepeats(list)
    && (forall z :: z in list <==> z in zones && zones[z].cls == c && zones[z].nfree > 0)
    && (forall x, y :: x in list && y in list && zones[x].nfree == zones[x].nmax && zones[y].nfree == zones[y].nmax ==> x == y)
  }

  ghost predicate ListsOk(zones: map<int, Zone>, lists: seq<seq<int>>) {
    |lists| == NZONES && forall c: nat :: c < NZONES ==> ListOk(zones, lists[c], c)
  }

  /** A zone that changes, appears or goes is no matter to the lists of other classes. */
  lemma OtherLists(zones: map<int, Zone>, zones': map<int, Zone>, lists: seq<seq<int>>, z: int, c: nat, list: seq<int>)
    requires ListsOk(zones, lists) && c < NZONES && ListOk(zones', list, c)
    requires forall x :: x != z ==> (x in zones <==> x in zones') && (x in zones ==> zones'[x] == zones[x])
    requires (z in zones ==> zones[z].cls == c) && (z in zones' ==> zones'[z].cls == c)
    ensures ListsOk(zones', lists[c := list])
  {
    hide NoRepeats;
    var lists' := lists[c := list];
    forall d: nat | d < NZONES
      ensures ListOk(zones', lists'[d], d)
    {
      assert ListOk(zones, lists[d], d);
    }
  }

  lemma TakeListed(zones: map<int, Zone>, lists: seq<seq<int>>, c: nat, zn: Zone)
    requires ListsOk(zones, lists) && c < NZONES && lists[c] != []
    requires lists[c][0] in zones && zones[lists[c][0]].nfree <= zones[lists[c][0]].nmax
    requires zn.cls == c && zn.nfree == zones[lists[c][0]].nfree - 1 && zn.nmax == zones[lists[c][0]].nmax
    ensures (var z := lists[c][0];
             ListsOk(zones[z := zn], lists[c := if zn.nfree == 0 then lists[c][1..] else lists[c]]))
  {
    var list, z := lists[c], lists[c][0];
    assert ListOk(zones, list, c);
    WithoutFirst(list);
    assert list == [z] + list[1..];
    hide NoRepeats;
    assert z in list;
    OtherLists(zones, zones[z := zn], lists, z, c, if zn.nfree == 0 then list[1..] else list);
  }

  lemma NewListed(zones: map<int, Zone>, lists: seq<seq<int>>, c: nat, z: int, zn: Zone)
    requires ListsOk(zones, lists) && c < NZONES && lists[c] == [] && z !in zones && zn.cls == c && zn.nfree > 0
    ensures ListsOk(zones[z := zn], lists[c := [z]])
  {
    assert ListOk(zones, lists[c], c);
    OtherLists(zones, zones[z := zn], lists, z, c, [z]);
  }

  /** The list of a zone that has just got a chunk back, before it is decided whether it stays. */
  function Relisted(list: seq<int>, z: int, wasFull: bool): seq<int> {
    if wasFull then [z] + list else list
  }

  lemma GiveListed(zones: map<int, Zone>, lists: seq<seq<int>>, z: int, zn: Zone)
    requires ListsOk(zones, lists) && z in zones && zn.cls == zones[z].cls < NZONES && zn.nfree == zones[z].nfree + 1
    requires zn.nmax == zones[z].nmax
    ensures var c := zn.cls;
      var list := Relisted(lists[c], z, zones[z].nfree == 0);
      && z in list && NoRepeats(list)
      && (zn.nfree != zn.nmax || list == [z] ==> ListsOk(zones[z := zn], lists[c := list]))
      && ListsOk(zones - {z}, lists[c := Without(list, z)])
  {
    hide NoRepeats, Without;
    var c := zn.cls;
    var list := Relisted(lists[c], z, zones[z].nfree == 0);
    assert ListOk(zones, lists[c], c);
    PrependNoRepeats(z, lists[c]);
    WithoutKeeps(list, z);
    hide ListsOk;
    if zn.nfree != zn.nmax || list == [z] {
      OtherLists(zones, zones[z := zn], lists, z, c, list);
    }
    OtherLists(zones, zones - {z}, lists, z, c, Without(list, z));
  }

  // ---------------------------------------------------------------- whose pages are whose

  /** PAGE_TYPE_FREE, PAGE_TYPE_SMALL and PAGE_TYPE_LARGE. */
  datatype Kind = Unused | Small | Large
  datatype Usage = Usage(kind: Kind, size: nat)

  /** Every page from first to last is free or belongs to exactly one zone or large allocation. */
  ghost predicate OwnOk(own: map<int, int>, claims: map<int, nat>, runs: seq<Run>, first: int, last: int) {
    && (forall p :: p in own ==> first <= p < last && !InRuns(runs, p))
    && (forall p :: first <= p < last ==> p in own || InRuns(runs, p))
    && (forall p :: InRuns(runs, p) ==> first <= p < last)
    && (forall b, p :: Holds(claims, b, p) ==> p in own && own[p] == b)
    && (forall p :: p in own ==> Holds(claims, own[p], p))
    && (forall b :: b in claims ==> claims[b] > 0)
  }

  /** memusage tells, for a page of a zone, how far it is from the start of the zone, and for the first page of a large
      allocation its length. */
  ghost predicate UsageOk(usage: map<int, Usage>, claims: map<int, nat>, smalls: set<int>, zonePages: nat) {
    && (forall b :: b in smalls ==> b in claims && claims[b] == zonePages)
    && (forall b, p :: Holds(claims, b, p) && b in smalls ==> p in usage && usage[p] == Usage(Small, p - b))
    && (forall b :: b in claims && b !in smalls ==> b in usage && usage[b] == Usage(Large, claims[b]))
  }

  ghost predicate PagesOk(own: map<int, int>, usage: map<int, Usage>, claims: map<int, nat>, smalls: set<int>, zonePages: nat,
                          runs: seq<Run>, first: int, last: int) {
    OwnOk(own, claims, runs, first, last) && UsageOk(usage, claims, smalls, zonePages)
  }

  ghost predicate Holds(claims: map<int, nat>, b: int, p: int) {
    b in claims && b <= p < b + claims[b]
  }

  function Claimed(own: map<int, int>, b: int, n: nat): (r: map<int, int>)
    ensures forall p :: p in r <==> p in own || b <= p < b + n
    ensures forall p :: p in r ==> r[p] == if b <= p < b + n then b else own[p]
  {
    if n == 0 then own else Claimed(own, b, n - 1)[b + n - 1 := b]
  }

  function Disowned(own: map<int, int>, b: int): map<int, int> {
    map p | p in own && own[p] != b :: own[p]
  }

  lemma ClaimOwn(own: map<int, int>, claims: map<int, nat>, runs: seq<Run>, first: int, last: int, n: nat)
    requires OwnOk(own, claims, runs, first, last) && Ordered(runs) && n > 0 && FirstFit(runs, n) < |runs|
    ensures var i := FirstFit(runs, n);
      var b := runs[i].start;
      && b !in claims && (forall a, p :: Holds(claims, a, p) ==> !(b <= p < b + n))
      && OwnOk(Claimed(own, b, n), claims[b := n], Taken(runs, i, n), first, last)
  {
    hide Ordered, InRuns, FirstFit, Taken, Claimed;
    var i := FirstFit(runs, n);
    var b := runs[i].start;
    forall p
      ensures InRuns(Taken(runs, i, n), p) <==> InRuns(runs, p) && !(b <= p < b + n)
      ensures b <= p < b + n ==> InRuns(runs, p)
    {
      TakenPages(runs, i, n, p);
    }
    var own', claims', runs' := Claimed(own, b, n), claims[b := n], Taken(runs, i, n);
    assert InRuns(runs, b);
    assert b in claims ==> Holds(claims, b, b);
    forall a, p | Holds(claims, a, p)
      ensures !(b <= p < b + n)
    {
      assert p in own && !InRuns(runs, p);
    }
    forall p | p in own'
      ensures first <= p < last && !InRuns(runs', p)
    {
      assert InRuns(runs', p) <==> InRuns(runs, p) && !(b <= p < b + n);
    }
    forall p | first <= p < last
      ensures p in own' || InRuns(runs', p)
    {
      assert InRuns(runs', p) <==> InRuns(runs, p) && !(b <= p < b + n);
    }
    forall a, p | Holds(claims', a, p)
      ensures p in own' && own'[p] == a
    {
      assert a != b ==> Holds(claims, a, p);
    }
    forall p | p in own'
      ensures Holds(claims', own'[p], p)
    {
      if !(b <= p < b + n) {
        assert Holds(claims, own[p], p);
      }
    }
  }

  lemma ClaimUsage(usage: map<int, Usage>, claims: map<int, nat>, smalls: set<int>, zonePages: nat, b: int, n: nat,
                   usage': map<int, Usage>, small: bool)
    requires UsageOk(usage, claims, smalls, zonePages) && b !in claims && n > 0 && (small ==> n == zonePages)
    requires (forall a, p :: Holds(claims, a, p) ==> !(b <= p < b + n)) && forall a :: a in claims ==> claims[a] > 0
    requires forall p :: p in usage && !(b <= p < b + n) ==> p in usage' && usage'[p] == usage[p]
    requires small ==> forall p :: b <= p < b + n ==> p in usage' && usage'[p] == Usage(Small, p - b)
    requires !small ==> b in usage' && usage'[b] == Usage(Large, n)
    ensures UsageOk(usage', claims[b := n], if small then smalls + {b} else smalls, zonePages)
  {
    var claims', smalls' := claims[b := n], if small then smalls + {b} else smalls;
    forall a, p | Holds(claims', a, p) && a in smalls'
      ensures p in usage' && usage'[p] == Usage(Small, p - a)
    {
      if a != b {
        assert Holds(claims, a, p);
      }
    }
    forall a | a in claims' && a !in smalls'
      ensures a in usage' && usage'[a] == Usage(Large, claims'[a])
    {
      if a != b {
        assert Holds(claims, a, a);
      }
    }
  }

  lemma ReleaseOwn(own: map<int, int>, claims: map<int, nat>, runs: seq<Run>, first: int, last: int, b: int)
    requires OwnOk(own, claims, runs, first, last) && Ordered(runs) && b in claims
    ensures claims[b] > 0 && first <= b && forall k :: b <= k < b + claims[b] ==> !InRuns(runs, k)
    ensures forall a, p :: Holds(claims - {b}, a, p) ==> !(b <= p < b + claims[b])
    ensures OwnOk(Disowned(own, b), claims - {b}, Given(runs, b, claims[b]), first, last)
  {
    hide Ordered, InRuns, Given;
    var n := claims[b];
    assert Holds(claims, b, b);
    forall k | b <= k < b + n
      ensures k in own && own[k] == b
    {
      assert Holds(claims, b, k);
    }
    forall p
      ensures InRuns(Given(runs, b, n), p) <==> InRuns(runs, p) || b <= p < b + n
    {
      GivenPages(runs, b, n, p);
    }
    var own', claims', runs' := Disowned(own, b), claims - {b}, Given(runs, b, n);
    forall p | p in own
      ensures Holds(claims, own[p], p) && (own[p] == b <==> b <= p < b + n)
    {
    }
    forall p | p in own'
      ensures first <= p < last && !InRuns(runs', p)
    {
      assert InRuns(runs', p) <==> InRuns(runs, p) || b <= p < b + n;
    }
    forall p | first <= p < last
      ensures p in own' || InRuns(runs', p)
    {
      assert InRuns(runs', p) <==> InRuns(runs, p) || b <= p < b + n;
    }
    forall p | InRuns(runs', p)
      ensures first <= p < last
    {
      assert InRuns(runs', p) <==> InRuns(runs, p) || b <= p < b + n;
    }
    forall a, p | Holds(claims', a, p)
      ensures p in own' && own'[p] == a && !(b <= p < b + n)
    {
      assert Holds(claims, a, p);
    }
    forall p | p in own'
      ensures Holds(claims', own'[p], p)
    {
      assert Holds(claims, own[p], p);
    }
  }

  lemma ReleaseUsage(usage: map<int, Usage>, claims: map<int, nat>, smalls: set<int>, zonePages: nat, b: int, usage': map<int, Usage>)
    requires UsageOk(usage, claims, smalls, zonePages) && b in claims && forall a :: a in claims ==> claims[a] > 0
    requires forall a, p :: Holds(claims - {b}, a, p) ==> !(b <= p < b + claims[b])
    requires forall p :: p in usage && !(b <= p < b + claims[b]) ==> p in usage' && usage'[p] == usage[p]
    ensures UsageOk(usage', claims - {b}, smalls - {b}, zonePages)
  {
    var claims', smalls' := claims - {b}, smalls - {b};
    forall a, p | Holds(claims', a, p) && a in smalls'
      ensures p in usage' && usage'[p] == Usage(Small, p - a)
    {
      assert Holds(claims, a, p);
    }
    forall a | a in claims' && a !in smalls'
      ensures a in usage' && usage'[a] == Usage(Large, claims'[a])
    {
      assert Holds(claims', a, a);
    }
  }

  /** memusage leads from any byte of a zone back to the zone, and from the start of a large allocation to its length. */
  lemma LookUp(own: map<int, int>, usage: map<int, Usage>, claims: map<int, nat>, smalls: set<int>, zonePages: nat,
               runs: seq<Run>, first: int, last: int, z: int, page: int)
    requires PagesOk(own, usage, claims, smalls, zonePages, runs, first, last) && z in claims
    requires if z in smalls then z <= page < z + zonePages else page == z
    ensures page in usage
    ensures if z in smalls then usage[page].kind == Small && page - usage[page].size == z else usage[page] == Usage(Large, claims[z])
  {
    hide InRuns, OwnOk;
    assert Holds(claims, z, page) by {
      ClaimsPositive(own, claims, runs, first, last);
    }
  }

  lemma ClaimsPositive(own: map<int, int>, claims: map<int, nat>, runs: seq<Run>, first: int, last: int)
    requires OwnOk(own, claims, runs, first, last)
    ensures forall b :: b in claims ==> claims[b] > 0
  {
    hide InRuns;
  }

  /** The page a chunk starts on is a page of its zone. */
  lemma ChunkPage(z: int, zone: Zone, i: nat, header: nat, pageSize: nat, zonePages: nat)
    requires z >= 0 && pageSize > 0 && ZoneOk(zone, header, zonePages * pageSize) && i < zone.nmax && zone.size > 0
    ensures z <= (z * pageSize + (zone.off + i * zone.size)) / pageSize < z + zonePages
    ensures i * zone.size / zone.size == i
  {
    var a, c := zone.off + i * zone.size, (zone.nmax - i) * zone.size;
    MulGrows(zone.nmax - i, zone.size);
    Spread(zone.nmax, i, zone.size);
    InPages(z, a, pageSize, zonePages);
    DivModUnique(i * zone.size, zone.size, i, 0);
  }

  lemma Spread(m: nat, i: nat, size: nat)
    requires i <= m
    ensures (m - i) * size == m * size - i * size && i * size >= 0
  {
  }

  lemma InPages(z: int, a: int, pageSize: nat, n: nat)
    requires z >= 0 && pageSize > 0 && 0 <= a < n * pageSize
    ensures z <= (z * pageSize + a) / pageSize < z + n
  {
    var q, r := a / pageSize, a % pageSize;
    assert a == q * pageSize + r;
    assert q >= 0;
    assert z * pageSize + a == (z + q) * pageSize + r;
    DivModUnique(z * pageSize + a, pageSize, z + q, r);
    MulGrows(q - n + 1, pageSize);
    assert (q - n + 1) * pageSize == q * pageSize - n * pageSize + pageSize;
  }

  // ---------------------------------------------------------------- the allocator

  /** The zones and their lists. */
  ghost predicate ZonesOk(zones: map<int, Zone>, lists: seq<seq<int>>, zoneFree: seq<int>, header: nat, bytes: nat) {
    && ListsOk(zones, lists) && (forall z :: z in zones ==> ZoneOk(zones[z], header, bytes))
    && NoRepeats(zoneFree) && |zoneFree| <= RELEASE_THRESH && forall z :: z in zoneFree ==> z !in zones
  }

  /** Every chunk but chunk i of zone z is live or not as before, at the same place. */
  ghost predicate OthersSame(zones: map<int, Zone>, zones': map<int, Zone>, z: int, i: nat) {
    && (forall y, j: nat :: !(y == z && j == i) ==> (LiveIn(zones', y, j) <==> LiveIn(zones, y, j)))
    && forall y :: y in zones && y in zones' ==> zones'[y].off == zones[y].off && zones'[y].size == zones[y].size
  }

  ghost predicate LiveIn(zones: map<int, Zone>, z: int, i: nat) {
    z in zones && Live(zones[z], i)
  }

  /** p is a pointer that was handed out and not freed: chunk i of zone z, or the large allocation that starts at page z. */
  ghost predicate Alive(zones: map<int, Zone>, claims: map<int, nat>, smalls: set<int>, pageSize: nat, z: int, i: nat, p: int) {
    if z in zones then LiveIn(zones, z, i) && p == z * pageSize + (zones[z].off + i * zones[z].size)
    else z in claims && z !in smalls && p == z * pageSize
  }

  ghost function Extent(zones: map<int, Zone>, claims: map<int, nat>, pageSize: nat, z: int): nat {
    if z in zones then zones[z].size else if z in claims then claims[z] * pageSize else 0
  }

  /** The size a block is resized to: for a small one that of a chunk. */
  ghost function NewSize(zones: map<int, Zone>, z: int, n: nat): nat {
    if z in zones then ZoneIndex(n).1 else n
  }

  /** The chunk serves the new size as well. */
  ghost predicate Serves(zones: map<int, Zone>, z: int, n: nat) {
    z in zones && zones[z].size == ZoneIndex(n).1
  }

  /** In terms of sizes: no smaller chunk holds the new size. */
  lemma ServesIff(zones: map<int, Zone>, lists: seq<seq<int>>, zoneFree: seq<int>, header: nat, bytes: nat, z: int, n: nat)
    requires ZonesOk(zones, lists, zoneFree, header, bytes) && z in zones && 0 < n < 16384
    ensures Serves(zones, z, n) <==> n <= zones[z].size && forall j: nat :: j < NZONES && n <= ChunkSize(j) ==> zones[z].size <= ChunkSize(j)
  {
    hide ListsOk, NoRepeats, ZoneIndex, ChunkSize, Offset;
    assert ZoneOk(zones[z], header, bytes);
    ZoneIndexRight(n);
    forall j: nat | j < NZONES && n <= ChunkSize(j)
      ensures ZoneIndex(n).1 <= ChunkSize(j)
    {
      ZoneIndexLeast(n, j);
    }
  }

  /** Every chunk that was live, but for chunk i of zone z, is live and where it was. */
  ghost predicate ChunksStay(zones: map<int, Zone>, zones': map<int, Zone>, z: int, i: nat) {
    forall x, k: nat :: LiveIn(zones, x, k) && !(x == z && k == i) ==>
      LiveIn(zones', x, k) && zones'[x].off == zones[x].off && zones'[x].size == zones[x].size
  }

  /** Every large allocation but the one at z is still there. */
  ghost predicate LargeStays(claims: map<int, nat>, smalls: set<int>, claims': map<int, nat>, smalls': set<int>, z: int) {
    forall b :: b in claims && b !in smalls && b != z ==> b in claims' && claims'[b] == claims[b] && b !in smalls'
  }

  /** Large allocations stay where they are, and stay large allocations. */
  ghost predicate LargeKept(claims: map<int, nat>, smalls: set<int>, claims': map<int, nat>, smalls': set<int>) {
    forall b :: b in claims && b !in smalls ==> b in claims' && claims'[b] == claims[b] && b !in smalls'
  }

  /** Nothing is left for n bytes: no run of pages for a large request; for a small one no zone of its class with a
      chunk to give, no free zone, and no run of pages for a new one. */
  ghost predicate Exhausted(n: nat, limit: nat, pageSize: nat, zonePages: nat, lists: seq<seq<int>>, zoneFree: seq<int>, runs: seq<Run>) {
    if n >= limit then pageSize > 0 && FirstFit(runs, AlignUp(n, pageSize) / pageSize) == |runs|
    else
      var c := ZoneIndex(n).0;
      0 <= c < |lists| && lists[c] == [] && zoneFree == [] && FirstFit(runs, zonePages) == |runs|
  }

  /** Where the first run of n pages starts. */
  ghost function RunFor(runs: seq<Run>, n: nat): int {
    var i := FirstFit(runs, n);
    if i < |runs| then runs[i].start else NULL
  }

  /** The page that n bytes come from: for a small request the first zone of its class, otherwise the first free zone,
      otherwise the first run of pages for a new one. */
  ghost function Chosen(n: nat, limit: nat, pageSize: nat, zonePages: nat, lists: seq<seq<int>>, zoneFree: seq<int>, runs: seq<Run>): int
    requires pageSize > 0
  {
    if n >= limit then RunFor(runs, AlignUp(n, pageSize) / pageSize)
    else
      var c := ZoneIndex(n).0;
      if 0 <= c < |lists| && lists[c] != [] then lists[c][0]
      else if zoneFree != [] then zoneFree[0]
      else RunFor(runs, zonePages)
  }

  /** Taking a chunk of the first zone of a list. */
  lemma TakeZones(zones: map<int, Zone>, lists: seq<seq<int>>, zoneFree: seq<int>, header: nat, bytes: nat, c: nat)
    requires ZonesOk(zones, lists, zoneFree, header, bytes) && c < NZONES && |lists| == NZONES && lists[c] != []
    ensures var z := lists[c][0];
      && z in zones && zones[z].nfree > 0 && (zones[z].uindex + 1 == zones[z].nmax ==> zones[z].chunks != []) && zones[z].cls == c
      && var (zn, i) := TakeChunk(zones[z]);
         && ZonesOk(zones[z := zn], lists[c := if zn.nfree == 0 then lists[c][1..] else lists[c]], zoneFree, header, bytes)
         && !LiveIn(zones, z, i) && LiveIn(zones[z := zn], z, i) && OthersSame(zones, zones[z := zn], z, i)
         && zn.off == zones[z].off && zn.size == zones[z].size == ChunkSize(c)
  {
    hide NoRepeats, ChunkSize, TakeChunk, Live;
    var z := lists[c][0];
    assert ListOk(zones, lists[c], c) && z in lists[c];
    ChunkCount(zones[z], header, bytes);
    TakeOk(zones[z], header, bytes);
    var (zn, i) := TakeChunk(zones[z]);
    TakeListed(zones, lists, c, zn);
    hide ZoneOk, ListsOk;
  }

  /** A new zone for a class that has none to take from. */
  lemma NewZones(zones: map<int, Zone>, lists: seq<seq<int>>, zoneFree: seq<int>, header: nat, bytes: nat, c: nat, z: int, zn: Zone)
    requires ZonesOk(zones, lists, zoneFree, header, bytes) && c < NZONES && |lists| == NZONES && lists[c] == []
    requires z !in zones && ZoneOk(zn, header, bytes) && zn.cls == c && zn.nfree > 0 && Live(zn, 0) && forall j: nat :: j != 0 ==> !Live(zn, j)
    requires z !in zoneFree
    ensures ZonesOk(zones[z := zn], lists[c := [z]], zoneFree, header, bytes)
    ensures !LiveIn(zones, z, 0) && LiveIn(zones[z := zn], z, 0) && OthersSame(zones, zones[z := zn], z, 0)
  {
    hide NoRepeats, ChunkSize, Live;
    NewListed(zones, lists, c, z, zn);
    hide ZoneOk, ListsOk;
  }

  /** Giving a chunk back: the zone stays in its list, or joins the free zones. */
  lemma GiveZones(zones: map<int, Zone>, lists: seq<seq<int>>, zoneFree: seq<int>, header: nat, bytes: nat, z: int, i: nat)
    requires ZonesOk(zones, lists, zoneFree, header, bytes) && LiveIn(zones, z, i)
    ensures |lists| == NZONES && zones[z].cls < NZONES && |zoneFree| <= RELEASE_THRESH && forall y :: y in zoneFree ==> y !in zones
    ensures var zn := GiveChunk(zones[z], i);
      var list := Relisted(lists[zn.cls], z, zones[z].nfree == 0);
      && z in list && NoRepeats(list) && NoRepeats([z] + zoneFree)
      && (zn.nfree != zn.nmax || list == [z] ==> ZonesOk(zones[z := zn], lists[zn.cls := list], zoneFree, header, bytes))
      && ListsOk(zones - {z}, lists[zn.cls := Without(list, z)])
      && (forall y :: y in zones - {z} ==> ZoneOk(zones[y], header, bytes))
      && OthersSame(zones, zones[z := zn], z, i) && !LiveIn(zones[z := zn], z, i)
      && (zn.nfree == zn.nmax ==> OthersSame(zones, zones - {z}, z, i)) && !LiveIn(zones - {z}, z, i)
  {
    hide NoRepeats, ChunkSize, Without;
    var zn := GiveChunk(zones[z], i);
    GiveOk(zones[z], header, bytes, i);
    GiveListed(zones, lists, z, zn);
    PrependNoRepeats(z, zoneFree);
    if zn.nfree == zn.nmax {
      WhollyFree(zn, header, bytes);
    }
    hide ZoneOk, ListsOk, Live, GiveChunk;
  }

  lemma WhollyFree(z: Zone, header: nat, bytes: nat)
    requires ZoneOk(z, header, bytes) && z.nfree == z.nmax
    ensures forall j: nat :: !Live(z, j)
  {
    ChunkCount(z, header, bytes);
    assert LiveChunks(z) == {};
    forall j: nat
      ensures !Live(z, j)
    {
      assert j in LiveChunks(z) <==> Live(z, j);
    }
  }

  // ---------------------------------------------------------------- what is handed out

  /** A live pointer by the number of its zone and chunk; a large allocation by its first page and 0. */
  type Key = (int, nat)

  ghost function KeyOf(zones: map<int, Zone>, z: int, i: nat): Key {
    (z, if z in zones then i else 0)
  }

  ghost predicate GivenKey(zones: map<int, Zone>, claims: map<int, nat>, smalls: set<int>, k: Key) {
    if k.0 in zones then LiveIn(zones, k.0, k.1) else k.0 in claims && k.0 !in smalls && k.1 == 0
  }

  ghost function SmallKeys(zones: map<int, Zone>): set<Key> {
    set z, i | z in zones && i in LiveChunks(zones[z]) :: (z, i)
  }

  ghost function LargeKeys(zones: map<int, Zone>, claims: map<int, nat>, smalls: set<int>): set<Key> {
    set b | b in claims && b !in zones && b !in smalls :: (b, 0)
  }

  ghost function Keys(zones: map<int, Zone>, claims: map<int, nat>, smalls: set<int>): set<Key> {
    SmallKeys(zones) + LargeKeys(zones, claims, smalls)
  }

  lemma KeysGiven(zones: map<int, Zone>, claims: map<int, nat>, smalls: set<int>, k: Key)
    ensures k in Keys(zones, claims, smalls) <==> GivenKey(zones, claims, smalls, k)
  {
    var (z, i) := k;
    if z in zones {
      assert i in LiveChunks(zones[z]) <==> Live(zones[z], i);
    }
    hide LiveChunks, Live;
    assert k in SmallKeys(zones) <==> z in zones && i in LiveChunks(zones[z]);
    assert k in LargeKeys(zones, claims, smalls) <==> z in claims && z !in zones && z !in smalls && i == 0;
  }

  /** The live pointers with the bytes each of them may use. */
  ghost function HandedOut(zones: map<int, Zone>, claims: map<int, nat>, smalls: set<int>, pageSize: nat): map<Key, nat> {
    map k | k in Keys(zones, claims, smalls) :: Extent(zones, claims, pageSize, k.0)
  }

  ghost function Sum(m: map<Key, nat>): nat {
    if m == map[] then 0 else
      var k :| k in m;
      m[k] + Sum(m - {k})
  }

  /** Any member can be counted first. */
  lemma {:induction false} SumOf(m: map<Key, nat>, k: Key)
    requires k in m
    ensures Sum(m) == m[k] + Sum(m - {k})
    decreases |m|
  {
    var first: Key :| first in m && Sum(m) == m[first] + Sum(m - {first});
    if first != k {
      SumOf(m - {first}, k);
      SumOf(m - {k}, first);
      assert m - {first} - {k} == m - {k} - {first};
    }
  }

  /** One pointer more, for as many bytes as it has room for. */
  lemma OneMore(s: map<Key, nat>, s': map<Key, nat>, k: Key)
    requires k !in s && k in s' && s'.Keys == s.Keys + {k} && forall l :: l in s ==> s'[l] == s[l]
    ensures Sum(s') == Sum(s) + s'[k]
  {
    SumOf(s', k);
    assert s' - {k} == s;
  }

  /** Two states that differ in one live pointer, y: chunk j of that zone, or the large allocation there. */
  lemma OneApart(zones: map<int, Zone>, claims: map<int, nat>, smalls: set<int>, zones': map<int, Zone>, claims': map<int, nat>,
                 smalls': set<int>, pageSize: nat, y: int, j: nat)
    requires zones.Keys <= smalls && zones'.Keys <= smalls'
    requires if y in zones' then
               && OthersSame(zones, zones', y, j) && !LiveIn(zones, y, j) && LiveIn(zones', y, j)
               && LargeKept(claims, smalls, claims', smalls') && LargeKept(claims', smalls', claims, smalls)
             else zones' == zones && smalls' == smalls && y in claims' && y !in smalls && claims == claims' - {y}
    ensures Sum(HandedOut(zones', claims', smalls', pageSize)) ==
            Sum(HandedOut(zones, claims, smalls, pageSize)) + Extent(zones', claims', pageSize, y)
  {
    hide Sum, Keys, Live;
    var k0 := KeyOf(zones', y, j);
    var s, s' := HandedOut(zones, claims, smalls, pageSize), HandedOut(zones', claims', smalls', pageSize);
    forall k: Key
      ensures k in s' <==> k in s || k == k0
      ensures k in s && k in s' ==> s'[k] == s[k]
    {
      KeysGiven(zones, claims, smalls, k);
      KeysGiven(zones', claims', smalls', k);
      assert k.0 in zones ==> k.0 in zones.Keys;
      assert k.0 in zones' ==> k.0 in zones'.Keys;
    }
    KeysGiven(zones, claims, smalls, k0);
    OneMore(s, s', k0);
  }

  /** What an allocation adds to the sum. */
  lemma AllocSum(zones: map<int, Zone>, claims: map<int, nat>, smalls: set<int>, zones': map<int, Zone>, claims': map<int, nat>,
                 smalls': set<int>, pageSize: nat, limit: nat, n: nat, y: int, j: nat)
    requires zones.Keys <= smalls && zones'.Keys <= smalls' && smalls <= claims.Keys
    requires n >= limit ==> zones' == zones && smalls' == smalls && y !in claims && y in claims' && claims' == claims[y := claims'[y]]
    requires n < limit ==>
      && y in zones' && OthersSame(zones, zones', y, j) && !LiveIn(zones, y, j) && LiveIn(zones', y, j)
      && LargeKept(claims, smalls, claims', smalls') && LargeKept(claims', smalls', claims, smalls)
    ensures Sum(HandedOut(zones', claims', smalls', pageSize)) ==
            Sum(HandedOut(zones, claims, smalls, pageSize)) + Extent(zones', claims', pageSize, y)
    ensures Extent(zones', claims', pageSize, y) == if n >= limit then claims'[y] * pageSize else zones'[y].size
  {
    hide Sum, HandedOut, OthersSame, LiveIn, LargeKept;
    if n >= limit {
      assert y !in smalls;
      assert y !in zones.Keys;
      assert claims == claims' - {y};
    }
    OneApart(zones, claims, smalls, zones', claims', smalls', pageSize, y, j);
  }

  /** And what a free takes off it. */
  lemma FreeSum(zones: map<int, Zone>, claims: map<int, nat>, smalls: set<int>, zones': map<int, Zone>, claims': map<int, nat>,
                smalls': set<int>, pageSize: nat, z: int, i: nat, p: int)
    requires zones.Keys <= smalls && zones'.Keys <= smalls' && Alive(zones, claims, smalls, pageSize, z, i, p)
    requires if z in zones then
               && OthersSame(zones, zones', z, i) && !LiveIn(zones', z, i)
               && LargeKept(claims, smalls, claims', smalls') && LargeKept(claims', smalls', claims, smalls)
             else zones' == zones && smalls' == smalls && claims' == claims - {z}
    ensures Sum(HandedOut(zones', claims', smalls', pageSize)) ==
            Sum(HandedOut(zones, claims, smalls, pageSize)) - Extent(zones, claims, pageSize, z)
  {
    hide Sum, HandedOut, LiveIn, LargeKept;
    if z in zones {
      assert OthersSame(zones', zones, z, i);
    }
    hide OthersSame;
    OneApart(zones', claims', smalls', zones, claims, smalls, pageSize, z, i);
  }

  function Larger(a: int, b: int): int {
    if a > b then a else b
  }

  // ---------------------------------------------------------------- the bytes

  /** What does not change of a slab. */
  datatype Layout = Layout(pageSize: nat, zonePages: nat, header: nat, first: int, last: nat)

  /** The slab at one moment. */
  datatype Snap = Snap(own: map<int, int>, usage: map<int, Usage>, claims: map<int, nat>, zones: map<int, Zone>,
                       zoneFree: seq<int>, lists: seq<seq<int>>, runs: seq<Run>)

  ghost function SmallsOf(s: Snap): set<int> {
    s.zones.Keys + set x | x in s.zoneFree
  }

  ghost predicate SnapOk(g: Layout, s: Snap) {
    && PagesOk(s.own, s.usage, s.claims, SmallsOf(s), g.zonePages, s.runs, g.first, g.last)
    && ZonesOk(s.zones, s.lists, s.zoneFree, g.header, g.zonePages * g.pageSize)
    && 0 <= g.first && g.pageSize > 0 && g.header <= g.zonePages * g.pageSize
  }

  ghost predicate AliveIn(g: Layout, s: Snap, x: int, k: nat, q: int) {
    Alive(s.zones, s.claims, SmallsOf(s), g.pageSize, x, k, q)
  }

  ghost function ExtentIn(g: Layout, s: Snap, x: int): nat {
    Extent(s.zones, s.claims, g.pageSize, x)
  }

  /** Every live pointer but the one of chunk i of zone z, or of the large allocation at z, keeps all the bytes its holder
      may use. */
  ghost predicate BytesStay(g: Layout, s: Snap, before: seq<Byte>, after: seq<Byte>, z: int, i: nat) {
    forall x, k: nat, q :: AliveIn(g, s, x, k, q) && !(x == z && (x in s.zones ==> k == i)) ==>
      T.SameBytes(before, q, after, q, ExtentIn(g, s, x))
  }

  ghost predicate Stay(s: Snap, s': Snap, z: int, i: nat) {
    ChunksStay(s.zones, s'.zones, z, i) && LargeStays(s.claims, SmallsOf(s), s'.claims, SmallsOf(s'), z)
  }

  function HeaderAt(g: Layout, z: int): Region {
    Region(z * g.pageSize, z * g.pageSize + g.header)
  }

  /** t is the header of one of the zones, used or free. */
  ghost predicate HeaderIn(t: Region, g: Layout, smalls: set<int>) {
    exists z :: z in smalls && t == HeaderAt(g, z)
  }

  /** memusage, which rt_slab_init has put into the pages before the first. */
  function Table(g: Layout): Region {
    Region(0, g.first * g.pageSize)
  }

  /** Where an allocation writes: records of pages that were free, headers of zones, memusage. */
  ghost predicate AllocRegions(g: Layout, node: nat, touched: set<Region>, runs: seq<Run>, smalls: set<int>) {
    forall t :: t in touched ==> NodeIn(t, g.pageSize, node, runs) || HeaderIn(t, g, smalls) || t == Table(g)
  }

  /** Where a free writes: records of pages that are free afterwards, headers of zones, memusage, and the link in the freed
      chunk. */
  ghost predicate FreeRegions(g: Layout, node: nat, touched: set<Region>, runs: seq<Run>, smalls: set<int>, link: Region) {
    forall t :: t in touched ==> NodeIn(t, g.pageSize, node, runs) || HeaderIn(t, g, smalls) || t == Table(g) || t == link
  }

  /** Where the bytes of a live pointer lie: in the pages it was given, and behind the header of its zone. */
  lemma InPlace(g: Layout, s: Snap, x: int, k: nat, q: int)
    requires SnapOk(g, s) && AliveIn(g, s, x, k, q)
    ensures x in s.claims && 0 <= g.first <= x && x + s.claims[x] <= g.last
    ensures x * g.pageSize <= q && q + ExtentIn(g, s, x) <= (x + s.claims[x]) * g.pageSize
    ensures x in s.zones ==> x * g.pageSize + g.header <= q
    ensures 0 <= q && q + ExtentIn(g, s, x) <= g.last * g.pageSize
  {
    hide ListsOk, OwnOk, InRuns, NoRepeats, ZoneOk;
    LiveNumber(s.zones, s.lists, s.zoneFree, g.header, g.zonePages * g.pageSize, x, k);
    hide Live;
    assert x in s.zones ==> x in s.zones.Keys;
    ClaimInside(s.own, s.claims, s.runs, g.first, g.last, x);
    Product(x + s.claims[x], g.last, g.pageSize);
    Product(0, x, g.pageSize);
    Distributed(x, s.claims[x], g.pageSize);
    if x in s.zones {
      ChunkInside(s.zones[x], k, g.header, g.zonePages * g.pageSize);
    }
  }

  /** A live chunk of power-of-two size starts at a multiple of its size exactly if its zone does, wherever the heap starts:
      the header is rounded up, but the zone itself is only page aligned. */
  lemma AlignedIff(g: Layout, s: Snap, start: int, x: int, k: nat, q: int)
    requires SnapOk(g, s) && AliveIn(g, s, x, k, q) && x in s.zones && PowerOfTwo(s.zones[x].size)
    ensures Multiple(start + q, s.zones[x].size) <==> Multiple(start + x * g.pageSize, s.zones[x].size)
  {
    hide ZonesOk, PagesOk, PowerOfTwo, Multiple, LiveIn;
    ChunkMultiple(g, s, x, k, q);
    AlignedAlike(start + x * g.pageSize, q - x * g.pageSize, s.zones[x].size);
  }

  /** So all chunks of that size are aligned if it divides both the page size and the address of the heap. */
  lemma AlignedEverywhere(g: Layout, s: Snap, start: int, x: int, k: nat, q: int)
    requires SnapOk(g, s) && AliveIn(g, s, x, k, q) && x in s.zones && PowerOfTwo(s.zones[x].size)
    requires Multiple(g.pageSize, s.zones[x].size) && Multiple(start, s.zones[x].size)
    ensures Multiple(start + q, s.zones[x].size)
  {
    hide ZonesOk, PagesOk, PowerOfTwo, Multiple, LiveIn;
    InPlace(g, s, x, k, q);
    AlignedIff(g, s, start, x, k, q);
    TimesMultiple(x, g.pageSize, s.zones[x].size);
    AlignedAlike(start, x * g.pageSize, s.zones[x].size);
  }

  lemma NodeClear(g: Layout, s: Snap, t: Region, node: nat, x: int, k: nat, q: int)
    requires SnapOk(g, s) && AliveIn(g, s, x, k, q) && NodeIn(t, g.pageSize, node, s.runs) && node <= g.pageSize
    ensures t.hi <= q || q + ExtentIn(g, s, x) <= t.lo
  {
    InPlace(g, s, x, k, q);
    hide Alive, Extent, ZonesOk, UsageOk, InRuns, SmallsOf;
    var p :| InRuns(s.runs, p) && t == NodeAt(p, g.pageSize, node);
    assert !Holds(s.claims, x, p);
    Distributed(p, 1, g.pageSize);
    if p < x {
      Product(p + 1, x, g.pageSize);
    } else {
      Product(x + s.claims[x], p, g.pageSize);
    }
  }

  lemma HeaderClear(g: Layout, s: Snap, t: Region, x: int, k: nat, q: int)
    requires SnapOk(g, s) && AliveIn(g, s, x, k, q) && HeaderIn(t, g, SmallsOf(s))
    ensures t.hi <= q || q + ExtentIn(g, s, x) <= t.lo
  {
    InPlace(g, s, x, k, q);
    hide Extent, ZonesOk, OwnOk, InRuns, LiveIn;
    var z :| z in SmallsOf(s) && t == HeaderAt(g, z);
    assert z in s.claims && s.claims[z] == g.zonePages;
    Distributed(z, g.zonePages, g.pageSize);
    if z < x {
      ClaimsApart(s.own, s.claims, s.runs, g.first, g.last, z, x, g.pageSize);
    } else if x < z {
      ClaimsApart(s.own, s.claims, s.runs, g.first, g.last, x, z, g.pageSize);
    }
  }

  lemma TableClear(g: Layout, s: Snap, x: int, k: nat, q: int)
    requires SnapOk(g, s) && AliveIn(g, s, x, k, q)
    ensures Table(g).hi <= q
  {
    InPlace(g, s, x, k, q);
    hide SnapOk, AliveIn;
    Product(g.first, x, g.pageSize);
  }

  /** The stores of an allocation reach no live pointer's bytes. */
  lemma AllocBytes(g: Layout, s: Snap, s': Snap, node: nat, touched: set<Region>, before: seq<Byte>, after: seq<Byte>, y: int, j: nat)
    requires SnapOk(g, s) && SnapOk(g, s') && Stay(s, s', y, j) && node <= g.pageSize
    requires !LiveIn(s.zones, y, j) && (y in s.zones || y !in s.claims || y in SmallsOf(s))
    requires Kept(touched, before, after) && |before| == g.last * g.pageSize
    requires AllocRegions(g, node, touched, s.runs, SmallsOf(s'))
    ensures BytesStay(g, s, before, after, NULL, 0)
  {
    hide Kept, SnapOk, Stay, NodeIn, HeaderIn, LiveIn, SmallsOf;
    forall x, k: nat, q | AliveIn(g, s, x, k, q)
      ensures T.SameBytes(before, q, after, q, ExtentIn(g, s, x))
    {
      Onward(g, s, s', y, j, x, k, q);
      InPlace(g, s, x, k, q);
      forall t | t in touched
        ensures t.hi <= q || q + ExtentIn(g, s, x) <= t.lo
      {
        if NodeIn(t, g.pageSize, node, s.runs) {
          NodeClear(g, s, t, node, x, k, q);
        } else if HeaderIn(t, g, SmallsOf(s')) {
          HeaderClear(g, s', t, x, k, q);
        } else {
          TableClear(g, s, x, k, q);
        }
      }
      KeptBytes(touched, before, after, q, ExtentIn(g, s, x));
    }
  }

  /** A live pointer stays live over an allocation. */
  lemma Onward(g: Layout, s: Snap, s': Snap, y: int, j: nat, x: int, k: nat, q: int)
    requires Stay(s, s', y, j) && AliveIn(g, s, x, k, q)
    requires !LiveIn(s.zones, y, j) && (y in s.zones || y !in s.claims || y in SmallsOf(s))
    ensures AliveIn(g, s', x, k, q) && ExtentIn(g, s', x) == ExtentIn(g, s, x)
    ensures x == y ==> x in s.zones && k != j
    ensures x in s.zones <==> x in s'.zones
  {
    hide Alive, Extent, ChunksStay, LargeStays, LiveIn;
    AnotherOne(s.zones, s.claims, SmallsOf(s), g.pageSize, x, k, q, y, j);
    StaysOn(s.zones, s.claims, SmallsOf(s), s'.zones, s'.claims, SmallsOf(s'), y, j, g.pageSize, x, k, q);
  }

  /** Nor do those of a free, but for the pointer that is freed. */
  lemma FreeBytes(g: Layout, s: Snap, s': Snap, node: nat, link: nat, touched: set<Region>, before: seq<Byte>, after: seq<Byte>,
                  z: int, i: nat, p: int)
    requires SnapOk(g, s) && SnapOk(g, s') && Stay(s, s', z, i) && node <= g.pageSize
    requires AliveIn(g, s, z, i, p) && link <= ExtentIn(g, s, z)
    requires Kept(touched, before, after) && |before| == g.last * g.pageSize
    requires FreeRegions(g, node, touched, s'.runs, SmallsOf(s), Region(p, p + link))
    ensures BytesStay(g, s, before, after, z, i)
  {
    hide Kept, SnapOk, Stay, NodeIn, HeaderIn, LiveIn, SmallsOf, AliveIn, ExtentIn;
    forall x, k: nat, q | AliveIn(g, s, x, k, q) && !(x == z && (x in s.zones ==> k == i))
      ensures T.SameBytes(before, q, after, q, ExtentIn(g, s, x))
    {
      StillThere(g, s, s', z, i, x, k, q);
      InPlace(g, s, x, k, q);
      BothApart(g, s, x, k, q, z, i, p);
      forall t | t in touched
        ensures t.hi <= q || q + ExtentIn(g, s, x) <= t.lo
      {
        if NodeIn(t, g.pageSize, node, s'.runs) {
          NodeClear(g, s', t, node, x, k, q);
        } else if HeaderIn(t, g, SmallsOf(s)) {
          HeaderClear(g, s, t, x, k, q);
        } else if t == Table(g) {
          TableClear(g, s, x, k, q);
        }
      }
      KeptBytes(touched, before, after, q, ExtentIn(g, s, x));
    }
  }

  lemma StillThere(g: Layout, s: Snap, s': Snap, z: int, i: nat, x: int, k: nat, q: int)
    requires Stay(s, s', z, i) && AliveIn(g, s, x, k, q) && !(x == z && (x in s.zones ==> k == i))
    ensures AliveIn(g, s', x, k, q) && ExtentIn(g, s', x) == ExtentIn(g, s, x)
    ensures x in s.zones <==> x in s'.zones
  {
    hide Alive, Extent, ChunksStay, LargeStays;
    StaysOn(s.zones, s.claims, SmallsOf(s), s'.zones, s'.claims, SmallsOf(s'), z, i, g.pageSize, x, k, q);
  }

  lemma BothApart(g: Layout, s: Snap, x: int, k: nat, q: int, y: int, j: nat, r: int)
    requires SnapOk(g, s) && AliveIn(g, s, x, k, q) && AliveIn(g, s, y, j, r) && !(x == y && (x in s.zones ==> k == j))
    ensures q + ExtentIn(g, s, x) <= r || r + ExtentIn(g, s, y) <= q
  {
    hide PagesOk, ZonesOk, Alive, Extent;
    AliveApart(s.own, s.usage, s.claims, s.zones, s.zoneFree, s.lists, g.zonePages, g.header, g.pageSize, s.runs, g.first, g.last,
               x, k, q, y, j, r);
  }

  /** Nothing has been written at all. */
  lemma NothingMoved(g: Layout, s: Snap, d: seq<Byte>, z: int, i: nat)
    requires SnapOk(g, s) && |d| == g.last * g.pageSize
    ensures BytesStay(g, s, d, d, z, i)
  {
    hide SnapOk, AliveIn, ExtentIn;
    forall x, k: nat, q | AliveIn(g, s, x, k, q)
      ensures T.SameBytes(d, q, d, q, ExtentIn(g, s, x))
    {
      InPlace(g, s, x, k, q);
    }
  }

  /** An allocation, a copy into what it has handed out, and a free: the new block holds what the old one held, and every other
      live pointer keeps its bytes. */
  lemma MoveBytes(g: Layout, s: Snap, s': Snap, d0: seq<Byte>, d1: seq<Byte>, d2: seq<Byte>, d3: seq<Byte>,
                  z: int, i: nat, p: int, y: int, j: nat, r: int, m: nat)
    requires SnapOk(g, s) && SnapOk(g, s') && Stay(s, s', y, j) && |d0| == g.last * g.pageSize
    requires !LiveIn(s.zones, y, j) && (y in s.zones || y !in s.claims || y in SmallsOf(s))
    requires AliveIn(g, s, z, i, p) && m <= ExtentIn(g, s, z) && AliveIn(g, s', y, j, r) && m <= ExtentIn(g, s', y)
    requires BytesStay(g, s, d0, d1, NULL, 0) && BytesStay(g, s', d2, d3, z, i)
    requires T.SameBytes(d1, p, d2, r, m) && |d1| == |d2|
    requires forall k :: 0 <= k < |d1| && !(r <= k < r + m) ==> d2[k] == d1[k]
    ensures T.SameBytes(d0, p, d3, r, m) && BytesStay(g, s, d0, d3, z, i)
  {
    hide SnapOk, Stay, LiveIn, SmallsOf, AliveIn, ExtentIn;
    Onward(g, s, s', y, j, z, i, p);
    InPlace(g, s, z, i, p);
    SamePart(d0, p, d1, p, ExtentIn(g, s, z), m);
    SamePart(d2, r, d3, r, ExtentIn(g, s', y), m);
    SameTwice(d0, p, d1, p, d2, r, m);
    SameTwice(d0, p, d2, r, d3, r, m);
    forall x, k: nat, q | AliveIn(g, s, x, k, q) && !(x == z && (x in s.zones ==> k == i))
      ensures T.SameBytes(d0, q, d3, q, ExtentIn(g, s, x))
    {
      Onward(g, s, s', y, j, x, k, q);
      InPlace(g, s, x, k, q);
      BothApart(g, s', x, k, q, y, j, r);
      CopyPast(d1, d2, r, m, q, ExtentIn(g, s, x));
      SameTwice(d0, q, d1, q, d2, q, ExtentIn(g, s, x));
      SameTwice(d0, q, d2, q, d3, q, ExtentIn(g, s, x));
    }
  }

  lemma CopyPast(d1: seq<Byte>, d2: seq<Byte>, r: int, m: nat, q: int, n: nat)
    requires |d1| == |d2| && forall k :: 0 <= k < |d1| && !(r <= k < r + m) ==> d2[k] == d1[k]
    requires 0 <= q && q + n <= |d1| && (q + n <= r || r + m <= q)
    ensures T.SameBytes(d1, q, d2, q, n)
  {
  }

  class Slab {
    const pageSize: nat                 // RT_MM_PAGE_SIZE
    const zonePages: nat                // zone_page_cnt
    const header: nat                   // sizeof(struct rt_slab_zone)
    const link: nat                     // sizeof(struct rt_slab_chunk)
    const limit: nat                    // zone_limit
    const start: int                    // heap_start; the addresses below count from it
    const first: int
    const last: nat
    const pages: Pages                  // page_list
    const ram: Ram                      // the bytes of the heap
    var zones: map<int, Zone>           // the headers of the zones in use, by first page
    var lists: seq<seq<int>>            // zone_array
    var zoneFree: seq<int>              // zone_free
    var zoneFreeCnt: nat
    var used: int
    var max: int
    var usage: map<int, Usage>          // memusage, by page
    ghost var claims: map<int, nat>     // the zones and large allocations, with the number of their pages
    ghost var own: map<int, int>        // which of them a page belongs to

    ghost function Smalls(): set<int>
      reads this
    {
      zones.Keys + set z | z in zoneFree
    }

    ghost predicate Sizes() {
      && 8 <= pageSize && zonePages > 0 && 0 < header <= 64 && link <= 8 && (limit == 8192 || limit == 16384)
      && 4 * limit <= zonePages * pageSize && 0 <= first <= last && ram.data.Length == last * pageSize
      && pages.ram == ram && pages.pageSize == pageSize && pages.last == last && pages.node <= pageSize
    }

    ghost predicate Valid()
      reads this, pages
    {
      && Sizes() && pages.Valid() && ZonesOk(zones, lists, zoneFree, header, zonePages * pageSize) && zoneFreeCnt == |zoneFree|
      && PagesOk(own, usage, claims, Smalls(), zonePages, pages.runs, first, last)
    }

    /** used is what the live pointers have room for, all together. */
    ghost predicate Counted()
      reads this
    {
      used == Sum(HandedOut(zones, claims, Smalls(), pageSize)) && used <= max
    }

    ghost function Geometry(): Layout {
      Layout(pageSize, zonePages, header, first, last)
    }

    ghost function Now(): Snap
      reads this, pages
    {
      Snap(own, usage, claims, zones, zoneFree, lists, pages.runs)
    }

    ghost function Addr(z: int, i: nat): int
      requires z in zones
      reads this
    {
      z * pageSize + (zones[z].off + i * zones[z].size)
    }

    ghost predicate LiveAt(z: int, i: nat, p: int)
      reads this
    {
      Alive(zones, claims, Smalls(), pageSize, z, i, p)
    }

    /** The bytes from a live pointer on that belong to its holder. */
    ghost function Room(z: int): nat
      reads this
    {
      Extent(zones, claims, pageSize, z)
    }

    /** rt_slab_init: all pages go to the page list, and those of memusage, with entry bytes for a page, are taken off it. */
    constructor (start: int, pageSize: nat, header: nat, link: nat, node: nat, entry: nat, npages: nat)
      requires 8 <= pageSize && Multiple(ZALLOC_MIN_ZONE_SIZE, pageSize) && 0 < header <= 64 && link <= 8 && node <= pageSize
      requires 0 < entry <= pageSize && npages > 0
      ensures Valid() && fresh(pages) && fresh(ram) && fresh(ram.data) && zones == map[] && zoneFree == [] && claims == map[]
      ensures Counted() && used == 0 && max == 0
      ensures this.start == start && this.pageSize == pageSize && lists == seq(NZONES, _ => [])
      ensures limit == LimitOf(npages * pageSize)
      ensures last == npages && first * pageSize == AlignUp(npages * entry, pageSize)
      ensures pages.runs == RunOf(first, last - first)
      ensures zonePages * pageSize == ZoneSizeOf(npages * pageSize)
    {
      hide Ordered, SlabPages.Linked, ListsOk, InRuns, AlignUp, NodeIn, Sum, HandedOut, ZonesOk, PagesOk, Kept;
      var zoneSize, zoneLimit := ZoneSizes(npages * pageSize);
      var table := AlignUp(npages * entry, pageSize) / pageSize;
      TableFits(npages, entry, pageSize);
      WholePages(npages * pageSize, pageSize);
      this.start, this.pageSize, this.zonePages, this.header, this.link, limit := start, pageSize, zoneSize / pageSize, header, link, zoneLimit;
      first, last := table, npages;
      var memory := new Ram(npages * pageSize);
      var free := new Pages(0, npages, pageSize, node, memory);
      ram, pages := memory, free;
      zones, lists, zoneFree, zoneFreeCnt, usage := map[], seq(NZONES, _ => []), [], 0, map[];
      claims, own, used, max := map[], map[], 0, 0;
      new;
      var b := pages.Alloc(table);
      assert pages.runs == RunOf(first, last - first);
      FreshOk(lists, zonePages, header, pageSize, first, npages - table);
      assert Smalls() == {};
    }

    /** The statistics of an allocation. */
    method CountUsed(n: nat)
      modifies this`used, this`max
      ensures used == old(used) + n && max == Larger(used, old(max))
    {
      used := used + n;
      if used > max {
        max := used;
      }
    }

    /** Stores to memusage. */
    method TouchTable()
      requires Sizes() && ram.Written()
      modifies ram`touched, ram.data
      ensures ram.Written() && ram.touched == old(ram.touched) + {Table(Geometry())}
    {
      Product(0, first, pageSize);
      Product(first, last, pageSize);
      ram.Touch(0, first * pageSize);
    }

    /** Stores to the header of a zone. */
    method TouchZone(z: int)
      requires Sizes() && ram.Written() && 0 <= z && z + zonePages <= last
      modifies ram`touched, ram.data
      ensures ram.Written() && ram.touched == old(ram.touched) + {HeaderAt(Geometry(), z)}
    {
      Product(0, z, pageSize);
      Product(z + zonePages, last, pageSize);
      Distributed(z, zonePages, pageSize);
      ram.Touch(z * pageSize, header);
    }

    /** rt_slab_alloc for a size from the zone limit on. */
    method AllocLarge(size: nat) returns (p: int, ghost b: int)
      requires Valid() && size >= limit
      requires ram.Written() && ram.touched == {}
      modifies this`usage, this`claims, this`own, this`used, this`max, pages, ram`touched, ram.data
      ensures Valid()
      ensures if p == NULL then used == old(used) && max == old(max) else
                b in claims && used == old(used) + claims[b] * pageSize && max == Larger(used, old(max))
      ensures ram.Written() && AllocRegions(Geometry(), pages.node, ram.touched, old(pages.runs), Smalls())
      ensures p == NULL <==> FirstFit(old(pages.runs), AlignUp(size, pageSize) / pageSize) == |old(pages.runs)|
      ensures p == NULL ==> Now() == old(Now()) && ram.touched == {}
      ensures p != NULL ==>
        var n := AlignUp(size, pageSize) / pageSize;
        b == RunFor(old(pages.runs), n) && pages.runs == Taken(old(pages.runs), FirstFit(old(pages.runs), n), n)
      ensures p != NULL ==> b !in old(claims) && p == b * pageSize && claims == old(claims)[b := AlignUp(size, pageSize) / pageSize]
    {
      hide Ordered, SlabPages.Linked, ZonesOk, OwnOk, UsageOk, FirstFit, Taken, InRuns, Claimed, AlignUp, NodeIn, Inside;
      UpIs(size, pageSize);
      var n := AlignUp(size, pageSize) / pageSize;
      SomePages(size, pageSize);
      ghost var runs := pages.runs;
      if FirstFit(runs, n) < |runs| {
        ClaimsStart(own, claims, runs, first, last, n);
      }
      var chunk := pages.Alloc(n);
      b := chunk;
      p := NULL;
      if chunk != NULL {
        ClaimOwn(own, claims, runs, first, last, n);
        ClaimsPositive(own, claims, runs, first, last);
        ClaimUsage(usage, claims, Smalls(), zonePages, chunk, n, usage[chunk := Usage(Large, n)], false);
        usage := usage[chunk := Usage(Large, n)];
        TouchTable();
        own, claims := Claimed(own, chunk, n), claims[chunk := n];
        CountUsed(AlignUp(size, pageSize));
        p := chunk * pageSize;
      }
    }

    /** A chunk from the first zone of its list. */
    method FromList(c: nat) returns (z: int, i: nat)
      requires Valid() && c < NZONES && |lists| == NZONES && lists[c] != []
      requires ram.Written() && ram.touched == {}
      modifies this`zones, this`lists, this`used, this`max, ram`touched, ram.data
      ensures Valid() && z in zones && zones[z].size == ChunkSize(c) && OthersSame(old(zones), zones, z, i)
      ensures z == old(lists)[c][0] && z in old(zones) && old(zones)[z].nfree > 0
      ensures old(zones)[z].uindex + 1 == old(zones)[z].nmax ==> old(zones)[z].chunks != []
      ensures (zones[z], i) == TakeChunk(old(zones)[z]) && zones == old(zones)[z := zones[z]]
      ensures lists == old(lists)[c := if zones[z].nfree == 0 then old(lists)[c][1..] else old(lists)[c]]
      ensures used == old(used) + zones[z].size && max == Larger(used, old(max))
      ensures !LiveIn(old(zones), z, i) && LiveIn(zones, z, i) && Smalls() == old(Smalls())
      ensures ram.Written() && AllocRegions(Geometry(), pages.node, ram.touched, old(pages.runs), Smalls())
    {
      hide Ordered, SlabPages.Linked, ZonesOk, OwnOk, UsageOk, OthersSame, LiveIn, ChunkSize, NodeIn, Inside;
      TakeZones(zones, lists, zoneFree, header, zonePages * pageSize, c);
      z := lists[c][0];
      ZoneInside(own, usage, claims, Smalls(), zonePages, pages.runs, first, last, z);
      var zone := zones[z];
      zone := zone.(nfree := zone.nfree - 1);
      if zone.nfree == 0 {
        lists := lists[c := lists[c][1..]];
      }
      if zone.uindex + 1 != zone.nmax {
        zone := zone.(uindex := zone.uindex + 1);
        i := zone.uindex;
      } else {
        i := zone.chunks[0];
        zone := zone.(chunks := zone.chunks[1..]);
      }
      zones := zones[z := zone];
      CountUsed(zone.size);
      TouchZone(z);
      assert zones.Keys == old(zones).Keys;
      assert lists == old(lists)[c := if zone.nfree == 0 then old(lists)[c][1..] else old(lists)[c]];
    }

    /** The pages of a new zone say how far they are from its start. */
    method MarkPages(z: int)
      requires Sizes() && ram.Written()
      modifies this`usage, ram`touched, ram.data
      ensures ram.Written() && ram.touched == old(ram.touched) + {Table(Geometry())}
      ensures forall p :: z <= p < z + zonePages ==> p in usage && usage[p] == Usage(Small, p - z)
      ensures forall p :: p in old(usage) && !(z <= p < z + zonePages) ==> p in usage && usage[p] == old(usage)[p]
    {
      var off := 0;
      while off < zonePages
        invariant off <= zonePages
        invariant forall p :: z <= p < z + off ==> p in usage && usage[p] == Usage(Small, p - z)
        invariant forall p :: p in old(usage) && !(z <= p < z + off) ==> p in usage && usage[p] == old(usage)[p]
        modifies this`usage
      {
        usage := usage[z + off := Usage(Small, off)];
        off := off + 1;
      }
      TouchTable();
    }

    /** Pages for a new zone from the page allocator. They belong to no zone, used or free. */
    method ZoneFromPages() returns (z: int)
      requires Valid()
      requires ram.Written() && ram.touched == {}
      modifies this`usage, this`own, this`claims, pages, ram`touched, ram.data
      ensures pages.Valid() && (z == NULL ==> Valid() && Now() == old(Now()) && ram.touched == {}) && z == RunFor(old(pages.runs), zonePages)
      ensures ram.Written() && AllocRegions(Geometry(), pages.node, ram.touched, old(pages.runs), Smalls())
      ensures z != NULL ==> var k := FirstFit(old(pages.runs), zonePages);
        k < |old(pages.runs)| && pages.runs == Taken(old(pages.runs), k, zonePages)
      ensures z == NULL <==> FirstFit(old(pages.runs), zonePages) == |old(pages.runs)|
      ensures z != NULL ==> z >= 0 && z !in old(claims) && z !in zones && z !in zoneFree && claims == old(claims)[z := zonePages]
      ensures z != NULL ==> PagesOk(own, usage, claims, Smalls() + {z}, zonePages, pages.runs, first, last)
    {
      hide Ordered, SlabPages.Linked, ZonesOk, OwnOk, FirstFit, Taken, InRuns, Claimed, NodeIn, Inside;
      ghost var runs := pages.runs;
      if FirstFit(runs, zonePages) < |runs| {
        ClaimsStart(own, claims, runs, first, last, zonePages);
      }
      z := pages.Alloc(zonePages);
      if z != NULL {
        ghost var usage0 := usage;
        ClaimOwn(own, claims, runs, first, last, zonePages);
        ClaimsPositive(own, claims, runs, first, last);
        MarkPages(z);
        ClaimUsage(usage0, claims, Smalls(), zonePages, z, zonePages, usage, true);
        hide UsageOk;
        own, claims := Claimed(own, z, zonePages), claims[z := zonePages];
      }
    }

    /** A zone that is in no list: a free zone, or a new one. */
    method PickZone() returns (z: int)
      requires Valid()
      requires ram.Written() && ram.touched == {}
      modifies this`zoneFree, this`zoneFreeCnt, this`usage, this`own, this`claims, pages, ram`touched, ram.data
      ensures z == NULL <==> old(zoneFree) == [] && FirstFit(old(pages.runs), zonePages) == |old(pages.runs)|
      ensures z == NULL ==> Valid() && Now() == old(Now()) && ram.touched == {}
      ensures z == if old(zoneFree) != [] then old(zoneFree)[0] else RunFor(old(pages.runs), zonePages)
      ensures if old(zoneFree) != [] then zoneFree == old(zoneFree)[1..] && pages.runs == old(pages.runs) else
                zoneFree == [] && (z != NULL ==> var k := FirstFit(old(pages.runs), zonePages);
                                     k < |old(pages.runs)| && pages.runs == Taken(old(pages.runs), k, zonePages))
      ensures ZonesOk(zones, lists, zoneFree, header, zonePages * pageSize)
      ensures pages.Valid() && zoneFreeCnt == |zoneFree| && NoRepeats(zoneFree) && |zoneFree| <= RELEASE_THRESH
      ensures z != NULL ==> z !in zones && z !in zoneFree && 0 <= z && z + zonePages <= last
      ensures z != NULL ==> (forall x :: x in zoneFree ==> x in old(zoneFree)) && (z in old(zoneFree) || z !in old(claims))
      ensures var smalls := if z == NULL then Smalls() else Smalls() + {z};
        LargeKept(old(claims), old(Smalls()), claims, smalls) && LargeKept(claims, smalls, old(claims), old(Smalls()))
      ensures z != NULL ==> PagesOk(own, usage, claims, Smalls() + {z}, zonePages, pages.runs, first, last)
      ensures forall b :: b in old(claims) ==> b in claims && claims[b] == old(claims)[b]
      ensures ram.Written() && AllocRegions(Geometry(), pages.node, ram.touched, old(pages.runs), Smalls())
    {
      hide Ordered, SlabPages.Linked, ListsOk, OwnOk, UsageOk, ZoneOk, InRuns, NodeIn, Inside;
      ghost var free0 := zoneFree;
      if zoneFree != [] {
        z := zoneFree[0];
        FreeZone(own, usage, claims, Smalls(), zonePages, pages.runs, first, last, z);
        ZoneInside(own, usage, claims, Smalls(), zonePages, pages.runs, first, last, z);
        WithoutFirst(zoneFree);
        zoneFree := zoneFree[1..];
        zoneFreeCnt := zoneFreeCnt - 1;
        assert free0 == [z] + zoneFree;
        assert Smalls() + {z} == old(Smalls());
      } else {
        z := ZoneFromPages();
        if z != NULL {
          ZoneInside(own, usage, claims, Smalls() + {z}, zonePages, pages.runs, first, last, z);
        }
      }
    }

    /** A zone for a class that has none to take from. */
    method FromNew(c: nat, size: nat) returns (z: int)
      requires Valid() && c < NZONES && |lists| == NZONES && lists[c] == [] && size == ChunkSize(c)
      requires 8 <= size && 4 * size <= zonePages * pageSize
      requires ram.Written() && ram.touched == {}
      modifies this`zones, this`lists, this`zoneFree, this`zoneFreeCnt, this`usage, this`own, this`claims, this`used, this`max, pages,
        ram`touched, ram.data
      ensures Valid()
      ensures if z == NULL then used == old(used) && max == old(max) else
                z in zones && used == old(used) + zones[z].size && max == Larger(used, old(max))
      ensures LargeKept(claims, Smalls(), old(claims), old(Smalls()))
      ensures z == NULL <==> old(zoneFree) == [] && FirstFit(old(pages.runs), zonePages) == |old(pages.runs)|
      ensures z == NULL ==> Now() == old(Now()) && ram.touched == {}
      ensures z == if old(zoneFree) != [] then old(zoneFree)[0] else RunFor(old(pages.runs), zonePages)
      ensures z != NULL ==>
        && zones == old(zones)[z := zones[z]] && lists == old(lists)[c := [z]] && zones[z].uindex == 0 && zones[z].chunks == []
        && if old(zoneFree) != [] then zoneFree == old(zoneFree)[1..] && pages.runs == old(pages.runs) else
             zoneFree == [] && var k := FirstFit(old(pages.runs), zonePages);
               k < |old(pages.runs)| && pages.runs == Taken(old(pages.runs), k, zonePages)
      ensures LargeKept(old(claims), old(Smalls()), claims, Smalls())
      ensures z != NULL ==> z >= 0 && z in zones && zones[z].size == ChunkSize(c) && OthersSame(old(zones), zones, z, 0)
      ensures z != NULL ==> !LiveIn(old(zones), z, 0) && LiveIn(zones, z, 0)
      ensures forall b :: b in old(claims) ==> b in claims && claims[b] == old(claims)[b]
      ensures ram.Written() && AllocRegions(Geometry(), pages.node, ram.touched, old(pages.runs), Smalls())
    {
      hide Ordered, SlabPages.Linked, ListsOk, OwnOk, UsageOk, OthersSame, LiveIn, ChunkSize, Live, ZoneOk, InRuns, NodeIn, Inside, LargeKept, RunFor, FirstFit, Taken, Kept, PagesOk, ZonesOk;
      z := PickZone();
      if z != NULL {
        OpenZone(c, size, z);
      }
    }

    /** The zone is cut into chunks, the first of which is handed out, and goes to the front of its list. */
    method OpenZone(c: nat, size: nat, z: int)
      requires Sizes() && pages.Valid() && ZonesOk(zones, lists, zoneFree, header, zonePages * pageSize) && zoneFreeCnt == |zoneFree|
      requires PagesOk(own, usage, claims, Smalls() + {z}, zonePages, pages.runs, first, last)
      requires z !in zones && z !in zoneFree && 0 <= z && z + zonePages <= last
      requires c < NZONES && |lists| == NZONES && lists[c] == [] && size == ChunkSize(c)
      requires 8 <= size && 4 * size <= zonePages * pageSize && ram.Written()
      modifies this`zones, this`lists, this`used, this`max, ram`touched, ram.data
      ensures Valid() && Smalls() == old(Smalls()) + {z} && z in zones && zones == old(zones)[z := zones[z]]
      ensures zones[z].size == size && zones[z].uindex == 0 && zones[z].chunks == [] && lists == old(lists)[c := [z]]
      ensures used == old(used) + size && max == Larger(used, old(max))
      ensures OthersSame(old(zones), zones, z, 0) && !LiveIn(old(zones), z, 0) && LiveIn(zones, z, 0)
      ensures ram.Written() && ram.touched == old(ram.touched) + {HeaderAt(Geometry(), z)}
    {
      hide Ordered, SlabPages.Linked, ListsOk, OwnOk, UsageOk, OthersSame, LiveIn, ChunkSize, Live, ZoneOk, InRuns, Inside, NoRepeats, NewZone,
        PagesOk, ZonesOk;
      TwoChunksFit(header, size, zonePages * pageSize);
      NewZoneOk(c, header, zonePages * pageSize);
      NewFields(c, size, header, zonePages * pageSize);
      ghost var smalls := Smalls() + {z};
      var zn := NewZone(c, size, header, zonePages * pageSize);
      NewZones(zones, lists, zoneFree, header, zonePages * pageSize, c, z, zn);
      zones := zones[z := zn];
      lists := lists[c := [z] + lists[c]];
      CountUsed(zn.size);
      TouchZone(z);
      assert lists[c] == [z];
      assert Smalls() == smalls;
    }

    /** The branches of rt_slab_alloc. */
    method Hand(n: nat) returns (p: int, ghost z: int, ghost i: nat)
      requires Valid()
      requires ram.Written() && ram.touched == {}
      modifies this, pages, ram`touched, ram.data
      ensures Valid()
      ensures p == NULL <==>
        n == 0 || Exhausted(n, limit, pageSize, zonePages, old(lists), old(zoneFree), old(pages.runs))
      ensures p == NULL ==> Now() == old(Now()) && ram.touched == {} && used == old(used) && max == old(max)
      ensures p != NULL ==> z == Chosen(n, limit, pageSize, zonePages, old(lists), old(zoneFree), old(pages.runs))
      ensures LargeKept(old(claims), old(Smalls()), claims, Smalls())
      ensures p != NULL && n < limit ==> TookChunk(Geometry(), old(Now()), Now(), n, z, i)
      ensures p != NULL && n >= limit ==> z in claims && i == 0 && used == old(used) + claims[z] * pageSize && max == Larger(used, old(max))
      ensures p != NULL && n < limit ==>
        z in zones && used == old(used) + zones[z].size && max == Larger(used, old(max))
        && LargeKept(claims, Smalls(), old(claims), old(Smalls()))
      ensures p != NULL && n >= limit ==>
        p == z * pageSize && TookPages(Geometry(), old(Now()), Now(), n, z)
      ensures p != NULL && n < limit ==>
        z in zones && p == Addr(z, i) && n <= zones[z].size == ZoneIndex(n).1 && !LiveIn(old(zones), z, i) && LiveIn(zones, z, i)
        && OthersSame(old(zones), zones, z, i) && forall b :: b in old(claims) ==> b in claims && claims[b] == old(claims)[b]
      ensures ram.Written() && AllocRegions(Geometry(), pages.node, ram.touched, old(pages.runs), Smalls())
    {
      hide Ordered, SlabPages.Linked, ListsOk, OwnOk, UsageOk, OthersSame, LiveIn, ChunkSize, Live, ZoneOk, InRuns, ZoneIndex, AlignUp,
        LargeKept, NodeIn, Inside, AllocRegions, Taken, FirstFit, RunFor, TakeChunk;
      z, i, p := 0, 0, NULL;
      LargeSelf(claims, Smalls());
      if n == 0 {
        NoRegions(Geometry(), pages.node, pages.runs, Smalls());
        return;
      }
      if n >= limit {
        p, z := AllocLarge(n);
        LargeMore(old(claims), Smalls(), z, AlignUp(n, pageSize) / pageSize);
        return;
      }
      var (c, size) := ZoneIndex(n);
      ZoneIndexRight(n);
      ClassFits(n, limit);
      ListsLength(zones, lists);
      if lists[c] != [] {
        var zp, ip := FromList(c);
        p := zp * pageSize + (zones[zp].off + ip * zones[zp].size);
        z, i := zp, ip;
        ZonePositive(own, usage, claims, Smalls(), zonePages, pages.runs, first, last, zp);
        AddrPositive(zp, pageSize, zones[zp].off, ip, zones[zp].size);
      } else {
        var zp := FromNew(c, size);
        if zp != NULL {
          p := zp * pageSize + (zones[zp].off + 0 * zones[zp].size);
          AddrPositive(zp, pageSize, zones[zp].off, 0, zones[zp].size);
        }
        z := zp;
      }
    }

    /** rt_slab_alloc. A live pointer is never handed out again; every other one stays live at its place, and keeps its bytes
        whatever the allocator writes to its own records. */
    method Alloc(n: nat) returns (p: int, ghost z: int, ghost i: nat)
      requires Valid() && Counted()
      modifies this, pages, ram, ram.data
      ensures Valid() && Counted()
      ensures if p == NULL then used == old(used) && max == old(max) else used == old(used) + Room(z) && max == Larger(used, old(max))
      ensures p == NULL <==>
        n == 0 || Exhausted(n, limit, pageSize, zonePages, old(lists), old(zoneFree), old(pages.runs))
      ensures p == NULL ==> Now() == old(Now()) && ram.data[..] == old(ram.data[..])
      ensures p != NULL && n < limit ==> TookChunk(Geometry(), old(Now()), Now(), n, z, i)
      ensures p == NULL && 0 < n < limit ==>
        AllLive(Geometry(), zones, ZoneIndex(n).1) && zoneFree == [] && forall r :: r in pages.runs ==> r.len < zonePages
      ensures p == NULL && n >= limit ==> forall r :: r in pages.runs ==> r.len * pageSize < n
      ensures p != NULL ==> z == Chosen(n, limit, pageSize, zonePages, old(lists), old(zoneFree), old(pages.runs))
      ensures p != NULL && n < limit ==> z in zones && zones[z].size == ZoneIndex(n).1
      ensures p != NULL && z in zones && PowerOfTwo(zones[z].size) ==>
        (Multiple(start + p, zones[z].size) <==> Multiple(start + z * pageSize, zones[z].size))
      ensures p != NULL && PowerOfTwo(n) ==> (Multiple(start + p, n) <==> Multiple(start + z * pageSize, n))
      ensures p != NULL ==> LiveAt(z, i, p) && n <= Room(z) && !old(LiveAt(z, i, p))
      ensures p != NULL && n >= limit ==>
        p == z * pageSize && TookPages(Geometry(), old(Now()), Now(), n, z)
      ensures p != NULL && n < limit ==> z in zones && OthersSame(old(zones), zones, z, i)
      ensures LargeKept(old(claims), old(Smalls()), claims, Smalls())
      ensures p != NULL ==> !LiveIn(old(zones), z, i) && (z in old(zones) || z !in old(claims) || z in old(Smalls()))
      ensures ChunksStay(old(zones), zones, z, i) && LargeStays(old(claims), old(Smalls()), claims, Smalls(), z)
      ensures BytesStay(Geometry(), old(Now()), old(ram.data[..]), ram.data[..], NULL, 0)
    {
      hide Ordered, SlabPages.Linked, ZonesOk, OwnOk, UsageOk, OthersSame, LiveIn, LargeKept, InRuns, AlignUp, Exhausted, LargeStays,
        ChunksStay, Alive, Extent, PagesOk, Inside, AllocRegions, BytesStay, Sum, HandedOut, Taken, FirstFit, Chosen, PowerOfTwo, Multiple, ZoneIndex, TookChunk, AllLive;
      ghost var s0, d0 := Now(), ram.data[..];
      ram.Begin();
      SmallsClaimed(own, usage, claims, Smalls(), zonePages, pages.runs, first, last);
      p, z, i := Hand(n);
      AllocStays(s0.zones, s0.claims, SmallsOf(s0), zones, claims, Smalls(), pageSize, limit, n, z, i, p);
      if p == NULL {
        KeptNone(d0, ram.data[..]);
        NothingMoved(Geometry(), s0, d0, NULL, 0);
        if n > 0 {
          ExhaustedMeans(Geometry(), s0, n, limit);
        }
      } else {
        AllocSum(s0.zones, s0.claims, SmallsOf(s0), zones, claims, Smalls(), pageSize, limit, n, z, i);
        AllocBytes(Geometry(), s0, Now(), pages.node, ram.touched, d0, ram.data[..], z, i);
        AllocAligned(Geometry(), Now(), start, limit, n, z, i, p);
      }
    }

    /** The branches of rt_slab_free: memusage leads to the zone or to the length of the large allocation. */
    method GiveBack(p: int, ghost z: int, ghost i: nat)
      requires Valid() && p != NULL && LiveAt(z, i, p)
      requires ram.Written() && ram.touched == {}
      modifies this, pages, ram`touched, ram.data
      ensures Valid()
      ensures z in old(zones) ==> !LiveIn(zones, z, i) && OthersSame(old(zones), zones, z, i)
      ensures z in old(zones) ==>
        LargeKept(old(claims), old(Smalls()), claims, Smalls()) && LargeKept(claims, Smalls(), old(claims), old(Smalls()))
      ensures used == old(used) - old(Room(z)) && max == old(max)
      ensures Freed(Geometry(), old(Now()), Now(), z, i)
      ensures z !in old(zones) ==> zones == old(zones) && zoneFree == old(zoneFree) && claims == old(claims) - {z}
      ensures ram.Written() && FreeRegions(Geometry(), pages.node, ram.touched, pages.runs, old(Smalls()), Region(p, p + link))
    {
      hide Ordered, SlabPages.Linked, ZonesOk, OwnOk, UsageOk, OthersSame, InRuns, Disowned, NodeIn, Inside;
      var page := p / pageSize;
      Found(own, usage, claims, zones, zoneFree, lists, zonePages, header, pageSize, pages.runs, first, last, z, i, p);
      var u := usage[page];
      if u.kind == Large {
        ghost var runs := pages.runs;
        ReleaseOwn(own, claims, runs, first, last, z);
        ClaimInside(own, claims, runs, first, last, z);
        ClaimsPositive(own, claims, runs, first, last);
        ReleaseUsage(usage, claims, Smalls(), zonePages, z, usage[page := Usage(Large, 0)]);
        used := used - u.size * pageSize;
        pages.Free(page, u.size);
        usage := usage[page := Usage(Large, 0)];
        TouchTable();
        assert Smalls() - {z} == Smalls();
        own, claims := Disowned(own, z), claims - {z};
        return;
      }
      var zp := page - u.size;
      var chunk := (p - zp * pageSize - zones[zp].off) / zones[zp].size;
      assert zp == z && chunk == i;
      LiveThere(zones, z, i);
      HeaderThere(Geometry(), z, Smalls());
      FreeChunk(zp, chunk);
    }

    /** rt_slab_free. A zone that becomes wholly free while its list has others is set aside, and of more than two such zones
        one goes back to the page allocator. Every other live pointer stays live at its place and keeps its bytes. */
    method Free(p: int, ghost z: int, ghost i: nat)
      requires Valid() && Counted() && (p == NULL || LiveAt(z, i, p))
      modifies this, pages, ram, ram.data
      ensures Valid() && Counted() && used == old(used) - (if p == NULL then 0 else old(Room(z))) && max == old(max)
      ensures p == NULL ==> zones == old(zones) && claims == old(claims) && Smalls() == old(Smalls()) && ram.data[..] == old(ram.data[..])
      ensures p != NULL ==> Freed(Geometry(), old(Now()), Now(), z, i)
      ensures p != NULL && z in old(zones) ==> !LiveIn(zones, z, i) && OthersSame(old(zones), zones, z, i)
      ensures p != NULL && z !in old(zones) ==> zones == old(zones) && zoneFree == old(zoneFree) && claims == old(claims) - {z}
      ensures p != NULL ==>
        ChunksStay(old(zones), zones, z, i) && LargeStays(old(claims), old(Smalls()), claims, Smalls(), z)
        && BytesStay(Geometry(), old(Now()), old(ram.data[..]), ram.data[..], z, i)
    {
      hide Ordered, SlabPages.Linked, ZonesOk, OwnOk, UsageOk, OthersSame, InRuns, LargeKept, LargeStays, ChunksStay, Alive, Extent, PagesOk,
        Inside, FreeRegions, BytesStay, LiveIn, Sum, HandedOut, Freed;
      if p == NULL {
        return;
      }
      ghost var s0, d0 := Now(), ram.data[..];
      ram.Begin();
      LinkFits(Geometry(), s0, z, i, p);
      GiveBack(p, z, i);
      FreeSum(s0.zones, s0.claims, SmallsOf(s0), zones, claims, Smalls(), pageSize, z, i, p);
      FreeStays(s0.zones, s0.claims, SmallsOf(s0), zones, claims, Smalls(), z, i);
      FreeBytes(Geometry(), s0, Now(), pages.node, link, ram.touched, d0, ram.data[..], z, i, p);
    }

    /** The second half of rt_slab_realloc: allocate, copy the common part, free. Nothing changes if there is nothing to
        allocate; otherwise every other live pointer stays live at its place with its bytes. */
    method Move(p: int, n: nat, m: nat, ghost z: int, ghost i: nat) returns (r: int, ghost y: int, ghost j: nat)
      requires Valid() && Counted() && p != NULL && LiveAt(z, i, p) && 0 < n && m <= n && m <= Room(z)
      modifies this, pages, ram, ram.data
      ensures Valid() && Counted()
      ensures if r == NULL then used == old(used) && max == old(max) else
                used == old(used) + Room(y) - old(Room(z)) && max == Larger(old(used) + Room(y), old(max))
      ensures r == NULL <==> Exhausted(n, limit, pageSize, zonePages, old(lists), old(zoneFree), old(pages.runs))
      ensures r == NULL ==> zones == old(zones) && claims == old(claims) && ram.data[..] == old(ram.data[..])
      ensures LargeStays(old(claims), old(Smalls()), claims, Smalls(), z) && ChunksStay(old(zones), zones, z, i)
      ensures r != NULL ==> LiveAt(y, j, r) && n <= Room(y) && !old(LiveAt(y, j, r))
      ensures r != NULL ==> if z in old(zones) then !LiveIn(zones, z, i) else z !in claims
      ensures r != NULL ==> T.SameBytes(old(ram.data[..]), p, ram.data[..], r, m)
      ensures BytesStay(Geometry(), old(Now()), old(ram.data[..]), ram.data[..], z, i)
    {
      hide Ordered, SlabPages.Linked, ZonesOk, OwnOk, UsageOk, OthersSame, LiveIn, LargeKept, InRuns, AlignUp, Exhausted, LargeStays,
        ChunksStay, Alive, Extent, PagesOk, Inside, BytesStay, Sum, HandedOut, Kept;
      ghost var s0, d0 := Now(), ram.data[..];
      r, y, j := Alloc(n);
      if r == NULL {
        NothingMoved(Geometry(), s0, d0, z, i);
        SameStays(zones, claims, SmallsOf(s0), claims, Smalls(), z, i);
        return;
      }
      ghost var s1, d1 := Now(), ram.data[..];
      Onward(Geometry(), s0, s1, y, j, z, i, p);
      InPlace(Geometry(), s1, z, i, p);
      InPlace(Geometry(), s1, y, j, r);
      BothApart(Geometry(), s1, z, i, p, y, j, r);
      T.CopyBytes(ram.data, r, p, m);
      ghost var d2 := ram.data[..];
      Free(p, z, i);
      StillThere(Geometry(), s1, Now(), z, i, y, j, r);
      BothStay(s0.zones, s0.claims, SmallsOf(s0), s1.zones, s1.claims, SmallsOf(s1), zones, claims, Smalls(), y, j, z, i);
      MoveBytes(Geometry(), s0, s1, d0, d1, d2, ram.data[..], z, i, p, y, j, r, m);
    }

    /** rt_slab_realloc of a live pointer to a size that is not zero. A chunk that serves the new size as well stays;
        otherwise the block moves, and on the way a small block's size has already been raised to that of a chunk. */
    method Resize(p: int, n: nat, ghost z: int, ghost i: nat) returns (r: int, ghost y: int, ghost j: nat)
      requires Valid() && Counted() && p != NULL && LiveAt(z, i, p) && 0 < n
      modifies this, pages, ram, ram.data
      ensures Valid() && Counted() && used == old(used) + (if r == NULL then 0 else Room(y) - old(Room(z)))
      ensures var size, kept := NewSize(old(zones), z, n), old(Serves(zones, z, n));
        && (r == NULL <==> !kept && Exhausted(size, limit, pageSize, zonePages, old(lists), old(zoneFree), old(pages.runs)))
        && (kept ==> r == p && y == z && j == i)
        && (r == NULL || kept ==> zones == old(zones) && claims == old(claims) && ram.data[..] == old(ram.data[..]))
        && (r != NULL && !kept ==>
              && !old(LiveAt(y, j, r)) && (if z in old(zones) then !LiveIn(zones, z, i) else z !in claims)
              && T.SameBytes(old(ram.data[..]), p, ram.data[..], r, if size <= old(Room(z)) then size else old(Room(z))))
      ensures r != NULL ==> LiveAt(y, j, r) && n <= Room(y)
      ensures LargeStays(old(claims), old(Smalls()), claims, Smalls(), z) && ChunksStay(old(zones), zones, z, i)
      ensures BytesStay(Geometry(), old(Now()), old(ram.data[..]), ram.data[..], z, i)
    {
      hide Ordered, SlabPages.Linked, ZonesOk, OwnOk, UsageOk, OthersSame, LiveIn, LargeKept, InRuns, AlignUp, Exhausted, LargeStays,
        ChunksStay, PagesOk, ZoneIndex, Alive, Extent, Inside, BytesStay;
      FoundAlive(own, usage, claims, zones, zoneFree, lists, zonePages, header, pageSize, pages.runs, first, last, z, i, p);
      var u := usage[p / pageSize];
      if u.kind == Large {
        var size := u.size * pageSize;
        r, y, j := Move(p, n, if n > size then size else n, z, i);
        return;
      }
      var zone := zones[p / pageSize - u.size];
      var size := ZoneIndex(n).1;
      RoundsUp(n);
      if zone.size == size {
        r, y, j := p, z, i;
        LargeSelf(claims, Smalls());
        SameStays(zones, claims, Smalls(), claims, Smalls(), z, i);
        NothingMoved(Geometry(), Now(), ram.data[..], z, i);
        return;
      }
      r, y, j := Move(p, size, if size > zone.size then zone.size else size, z, i);
    }

    /** rt_slab_realloc. */
    method Realloc(p: int, n: nat, ghost z: int, ghost i: nat) returns (r: int, ghost y: int, ghost j: nat)
      requires Valid() && Counted() && (p == NULL || LiveAt(z, i, p))
      modifies this, pages, ram, ram.data
      ensures Valid() && Counted()
      ensures used == old(used) + (if r == NULL then 0 else Room(y)) - (if p == NULL || (n > 0 && r == NULL) then 0 else old(Room(z)))
      ensures p == NULL ==>
        && (r == NULL <==> n == 0 || Exhausted(n, limit, pageSize, zonePages, old(lists), old(zoneFree), old(pages.runs)))
        && (r == NULL ==> zones == old(zones) && claims == old(claims) && ram.data[..] == old(ram.data[..]))
        && (r != NULL ==> !old(LiveAt(y, j, r)))
        && ChunksStay(old(zones), zones, y, j) && LargeStays(old(claims), old(Smalls()), claims, Smalls(), y)
        && BytesStay(Geometry(), old(Now()), old(ram.data[..]), ram.data[..], NULL, 0)
      ensures p != NULL && n == 0 ==> r == NULL && if z in old(zones) then !LiveIn(zones, z, i) else z !in claims
      ensures p != NULL && n > 0 ==>
        (r == NULL <==> !old(Serves(zones, z, n)) && Exhausted(NewSize(old(zones), z, n), limit, pageSize, zonePages, old(lists),
                                                               old(zoneFree), old(pages.runs)))
      ensures p != NULL && n > 0 && r == NULL ==> zones == old(zones) && claims == old(claims) && ram.data[..] == old(ram.data[..])
      ensures p != NULL && n > 0 && r != NULL && !old(Serves(zones, z, n)) ==>
        var size := NewSize(old(zones), z, n);
        && !old(LiveAt(y, j, r)) && (if z in old(zones) then !LiveIn(zones, z, i) else z !in claims)
        && T.SameBytes(old(ram.data[..]), p, ram.data[..], r, if size <= old(Room(z)) then size else old(Room(z)))
      ensures p != NULL && n > 0 && old(Serves(zones, z, n)) ==> r == p && zones == old(zones) && ram.data[..] == old(ram.data[..])
      ensures r != NULL ==> LiveAt(y, j, r) && n <= Room(y)
      ensures p != NULL ==>
        LargeStays(old(claims), old(Smalls()), claims, Smalls(), z) && ChunksStay(old(zones), zones, z, i)
        && BytesStay(Geometry(), old(Now()), old(ram.data[..]), ram.data[..], z, i)
    {
      hide Ordered, SlabPages.Linked, ZonesOk, OwnOk, UsageOk, OthersSame, LiveIn, LargeKept, InRuns, AlignUp, Exhausted, LargeStays,
        ChunksStay, PagesOk, ZoneIndex, Extent, Alive, Serves, NewSize, Inside, BytesStay;
      r, y, j := NULL, z, i;
      if p == NULL {
        r, y, j := Alloc(n);
        return;
      }
      if n == 0 {
        Free(p, z, i);
        return;
      }
      r, y, j := Resize(p, n, z, i);
    }

    /** The loop that takes zone z out of list c: the link that led to it is in the array or in the header of another zone. */
    method Unlist(c: nat, z: int)
      requires Sizes() && ram.Written() && c < |lists| && NoRepeats(lists[c]) && z in lists[c]
      requires forall x :: x in lists[c] ==> 0 <= x && x + zonePages <= last
      modifies this`lists, ram`touched, ram.data
      ensures lists == old(lists)[c := Without(old(lists)[c], z)] && ram.Written()
      ensures forall t :: t in ram.touched ==>
        t in old(ram.touched) || exists x :: x in old(lists)[c] && t == HeaderAt(Geometry(), x)
    {
      hide Without, NoRepeats;
      var k := 0;
      while lists[c][k] != z
        invariant k < |lists[c]| && forall m :: 0 <= m < k ==> lists[c][m] != z
        decreases |lists[c]| - k
        modifies {}
      {
        k := k + 1;
      }
      WithoutAt(lists[c], k);
      if k > 0 {
        assert lists[c][k - 1] in lists[c];
        TouchZone(lists[c][k - 1]);
      }
      lists := lists[c := lists[c][..k] + lists[c][k + 1..]];
    }

    /** The stores to the chunk that comes back and to the header of its zone. */
    method TouchChunk(z: int, i: nat)
      requires Valid() && LiveIn(zones, z, i) && ram.Written()
      modifies ram`touched, ram.data
      ensures z in zones && ram.Written() && 0 <= z && z + zonePages <= last
      ensures ram.touched == old(ram.touched) + {Region(Addr(z, i), Addr(z, i) + link), HeaderAt(Geometry(), z)}
    {
      hide Ordered, SlabPages.Linked, OwnOk, UsageOk, InRuns, Inside, ListsOk, ZoneOk, Live;
      LinkFits(Geometry(), Now(), z, i, Addr(z, i));
      InPlace(Geometry(), Now(), z, i, Addr(z, i));
      ZoneInside(own, usage, claims, Smalls(), zonePages, pages.runs, first, last, z);
      ram.Touch(z * pageSize + (zones[z].off + i * zones[z].size), link);
      TouchZone(z);
    }

    method FreeChunk(z: int, i: nat)
      requires Valid() && LiveIn(zones, z, i)
      requires ram.Written() && ram.touched == {}
      modifies this, pages, ram`touched, ram.data
      ensures Valid() && !LiveIn(zones, z, i) && OthersSame(old(zones), zones, z, i)
      ensures LargeKept(old(claims), old(Smalls()), claims, Smalls()) && LargeKept(claims, Smalls(), old(claims), old(Smalls()))
      ensures Freed(Geometry(), old(Now()), Now(), z, i)
      ensures z in old(zones) && ram.Written() && used == old(used) - old(zones)[z].size && max == old(max)
      ensures forall t :: t in ram.touched ==>
        t == HeaderAt(Geometry(), z) || t == Region(old(Addr(z, i)), old(Addr(z, i)) + link) || NodeIn(t, pageSize, pages.node, pages.runs)
        || HeaderIn(t, Geometry(), old(Smalls())) || t == Table(Geometry())
    {
      hide Ordered, SlabPages.Linked, ListsOk, OwnOk, UsageOk, OthersSame, LiveIn, ZoneOk, InRuns, NoRepeats, Without, LargeKept,
        NodeIn, Inside, HeaderIn, Table, HeaderAt, Kept, PagesOk, ZonesOk, Freed;
      LiveThere(zones, z, i);
      TouchChunk(z, i);
      used := used - zones[z].size;
      Regroup(z, i);
    }

    /** The chunk joins the free ones of its zone, and the zone goes where it belongs then. */
    method Regroup(z: int, i: nat)
      requires Valid() && LiveIn(zones, z, i) && ram.Written()
      modifies this`zones, this`lists, this`zoneFree, this`zoneFreeCnt, this`usage, this`own, this`claims, pages, ram`touched, ram.data
      ensures Valid() && !LiveIn(zones, z, i) && OthersSame(old(zones), zones, z, i) && ram.Written()
      ensures LargeKept(old(claims), old(Smalls()), claims, Smalls()) && LargeKept(claims, Smalls(), old(claims), old(Smalls()))
      ensures Freed(Geometry(), old(Now()), Now(), z, i)
      ensures forall t :: t in ram.touched ==>
        t in old(ram.touched) || NodeIn(t, pageSize, pages.node, pages.runs) || HeaderIn(t, Geometry(), old(Smalls())) || t == Table(Geometry())
    {
      hide Ordered, SlabPages.Linked, ListsOk, OwnOk, UsageOk, OthersSame, LiveIn, ZoneOk, InRuns, GiveChunk, NoRepeats, Without, LargeKept,
        NodeIn, Inside, HeaderIn, Table, HeaderAt, Kept, PagesOk, ZonesOk, Given;
      LargeSelf(claims, Smalls());
      GiveZones(zones, lists, zoneFree, header, zonePages * pageSize, z, i);
      ghost var smalls := Smalls();
      LiveThere(zones, z, i);
      ZoneInside(own, usage, claims, Smalls(), zonePages, pages.runs, first, last, z);
      var zone, wasFull := GiveChunk(zones[z], i), zones[z].nfree == 0;
      GivenFields(zones[z], i);
      var c := zone.cls;
      ListInside(Now(), Geometry(), c);
      ghost var list := Relisted(lists[c], z, wasFull);
      if wasFull {
        lists := lists[c := [z] + lists[c]];
      }
      assert lists == old(lists)[c := list];
      assert forall x :: x in list ==> x == z || x in old(lists)[c];
      assert Smalls() == smalls;
      if zone.nfree == zone.nmax && lists[c] != [z] {
        assert lists[c := Without(list, z)] == old(lists)[c := Without(list, z)];
        SetAside(c, z);
      } else {
        zones := zones[z := zone];
        assert Smalls() == smalls;
      }
    }

    /** A zone that is wholly free leaves list c for zone_free, unless that has enough of them. */
    method SetAside(c: nat, z: int)
      requires Sizes() && pages.Valid() && ram.Written() && c < |lists| && NoRepeats(lists[c]) && z in lists[c]
      requires z in zones && forall x :: x in lists[c] ==> x in Smalls() && 0 <= x && x + zonePages <= last
      requires zoneFreeCnt == |zoneFree| <= RELEASE_THRESH && NoRepeats([z] + zoneFree) && forall y :: y in zoneFree ==> y !in zones
      requires ListsOk(zones - {z}, lists[c := Without(lists[c], z)])
      requires forall y :: y in zones - {z} ==> ZoneOk(zones[y], header, zonePages * pageSize)
      requires PagesOk(own, usage, claims, Smalls(), zonePages, pages.runs, first, last)
      modifies this`zones, this`lists, this`zoneFree, this`zoneFreeCnt, this`usage, this`own, this`claims, pages, ram`touched, ram.data
      ensures pages.Valid() && ram.Written() && zones == old(zones) - {z} && lists == old(lists)[c := Without(old(lists)[c], z)]
      ensures if |old(zoneFree)| < 2 then zoneFree == [z] + old(zoneFree) && pages.runs == old(pages.runs)
              else zoneFree == old(zoneFree) && pages.runs == Given(old(pages.runs), z, zonePages)
      ensures zoneFreeCnt == |zoneFree| && ZonesOk(zones, lists, zoneFree, header, zonePages * pageSize)
      ensures PagesOk(own, usage, claims, Smalls(), zonePages, pages.runs, first, last)
      ensures LargeKept(old(claims), old(Smalls()), claims, Smalls()) && LargeKept(claims, Smalls(), old(claims), old(Smalls()))
      ensures forall t :: t in ram.touched ==>
        t in old(ram.touched) || NodeIn(t, pageSize, pages.node, pages.runs) || HeaderIn(t, Geometry(), old(Smalls())) || t == Table(Geometry())
    {
      hide Ordered, SlabPages.Linked, OwnOk, UsageOk, InRuns, NoRepeats, Without, LargeKept, NodeIn, Inside, ListsOk, ZoneOk;
      LargeSelf(claims, Smalls());
      ghost var smalls := Smalls();
      Unlist(c, z);
      zones := zones - {z};
      zoneFree := [z] + zoneFree;
      zoneFreeCnt := zoneFreeCnt + 1;
      assert Smalls() == smalls;
      if zoneFreeCnt > RELEASE_THRESH {
        WithoutFirst(zoneFree);
        ReleaseZone();
      }
    }

    /** One free zone too many goes back to the page allocator. */
    method ReleaseZone()
      requires Sizes() && pages.Valid() && zoneFree != [] && zoneFreeCnt == |zoneFree| && NoRepeats(zoneFree)
      requires zoneFree[0] !in zones && ram.Written()
      requires PagesOk(own, usage, claims, Smalls(), zonePages, pages.runs, first, last)
      modifies this`zoneFree, this`zoneFreeCnt, this`usage, this`own, this`claims, pages, ram`touched, ram.data
      ensures pages.Valid() && zoneFree == old(zoneFree)[1..] && zoneFreeCnt == |zoneFree|
      ensures pages.runs == Given(old(pages.runs), old(zoneFree)[0], zonePages)
      ensures LargeKept(old(claims), old(Smalls()), claims, Smalls()) && LargeKept(claims, Smalls(), old(claims), old(Smalls()))
      ensures PagesOk(own, usage, claims, Smalls(), zonePages, pages.runs, first, last)
      ensures ram.Written() && forall t :: t in ram.touched ==>
        t in old(ram.touched) || NodeIn(t, pageSize, pages.node, pages.runs) || t == Table(Geometry())
    {
      hide Ordered, SlabPages.Linked, OwnOk, UsageOk, InRuns, Disowned, NodeIn, Inside;
      var z := zoneFree[0];
      ghost var runs, usage0, smalls := pages.runs, usage, Smalls();
      FreeZone(own, usage, claims, Smalls(), zonePages, runs, first, last, z);
      WithoutFirst(zoneFree);
      assert zoneFree == [z] + zoneFree[1..];
      zoneFree := zoneFree[1..];
      zoneFreeCnt := zoneFreeCnt - 1;
      assert Smalls() == smalls - {z};
      ClearPages(z);
      ReleaseOwn(own, claims, runs, first, last, z);
      ClaimInside(own, claims, runs, first, last, z);
      ClaimsPositive(own, claims, runs, first, last);
      ReleaseUsage(usage0, claims, smalls, zonePages, z, usage);
      pages.Free(z, zonePages);
      own, claims := Disowned(own, z), claims - {z};
    }

    method ClearPages(z: int)
      requires Sizes() && ram.Written()
      modifies this`usage, ram`touched, ram.data
      ensures ram.Written() && ram.touched == old(ram.touched) + {Table(Geometry())}
      ensures forall p :: p in old(usage) && !(z <= p < z + zonePages) ==> p in usage && usage[p] == old(usage)[p]
    {
      var i := 0;
      while i < zonePages
        invariant i <= zonePages
        invariant forall p :: p in old(usage) && !(z <= p < z + zonePages) ==> p in usage && usage[p] == old(usage)[p]
        modifies this`usage
      {
        usage := usage[z + i := Usage(Unused, 0)];
        i := i + 1;
      }
      TouchTable();
    }
  }

  lemma ZoneInside(own: map<int, int>, usage: map<int, Usage>, claims: map<int, nat>, smalls: set<int>, zonePages: nat,
                   runs: seq<Run>, first: int, last: int, z: int)
    requires PagesOk(own, usage, claims, smalls, zonePages, runs, first, last) && z in smalls
    ensures first <= z && z + zonePages <= last
  {
    hide OwnOk;
    ClaimInside(own, claims, runs, first, last, z);
  }

  /** The zones of a list lie in the heap. */
  lemma ListInside(s: Snap, g: Layout, c: nat)
    requires SnapOk(g, s) && c < |s.lists|
    ensures forall x :: x in s.lists[c] ==> x in SmallsOf(s) && 0 <= x && x + g.zonePages <= g.last
  {
    hide OwnOk, UsageOk, ZoneOk, NoRepeats;
    assert ListOk(s.zones, s.lists[c], c);
    forall x | x in s.lists[c]
      ensures x in SmallsOf(s) && 0 <= x && x + g.zonePages <= g.last
    {
      assert x in s.zones.Keys;
      ZoneInside(s.own, s.usage, s.claims, SmallsOf(s), g.zonePages, s.runs, g.first, g.last, x);
    }
  }

  /** A chunk has room for the link it holds while it is free. */
  lemma LinkFits(g: Layout, s: Snap, z: int, i: nat, p: int)
    requires SnapOk(g, s) && AliveIn(g, s, z, i, p) && 8 <= g.pageSize
    ensures ExtentIn(g, s, z) >= 8
  {
    hide UsageOk, ListsOk, NoRepeats, LiveIn, InRuns;
    ClaimsPositive(s.own, s.claims, s.runs, g.first, g.last);
    hide OwnOk;
    if z !in s.zones {
      Product(1, s.claims[z], g.pageSize);
    }
  }

  lemma HeaderThere(g: Layout, z: int, smalls: set<int>)
    requires z in smalls
    ensures HeaderIn(HeaderAt(g, z), g, smalls)
  {
  }

  /** Every chunk there is room for behind the header of a zone with chunks of that size is live. */
  ghost predicate AllLive(g: Layout, zones: map<int, Zone>, size: nat) {
    forall y, j: nat :: (y in zones && zones[y].size == size && zones[y].off + (j + 1) * size <= g.zonePages * g.pageSize)
                        ==> LiveIn(zones, y, j)
  }

  /** What a large allocation does: it takes as many pages as the size needs off the front of the first run that has them,
      and nothing else of the state but their owner changes. */
  ghost predicate TookPages(g: Layout, s: Snap, s': Snap, n: nat, z: int) {
    && g.pageSize > 0 && z !in s.claims && s'.zones == s.zones && s'.zoneFree == s.zoneFree && s'.lists == s.lists
    && var k := AlignUp(n, g.pageSize) / g.pageSize;
       && s'.claims == s.claims[z := k] && FirstFit(s.runs, k) < |s.runs| && s'.runs == Taken(s.runs, FirstFit(s.runs, k), k)
  }

  /** Nothing is left when every chunk there is room for, in every zone with chunks of that size, is live, no zone is free
      and no run of pages long enough for a new one; for a large request, when no run of pages is long enough. */
  lemma ExhaustedMeans(g: Layout, s: Snap, n: nat, limit: nat)
    requires SnapOk(g, s) && 0 < n && limit <= 16384 && Exhausted(n, limit, g.pageSize, g.zonePages, s.lists, s.zoneFree, s.runs)
    ensures n < limit ==>
      && AllLive(g, s.zones, ZoneIndex(n).1)
      && s.zoneFree == [] && forall r :: r in s.runs ==> r.len < g.zonePages
    ensures n >= limit ==> forall r :: r in s.runs ==> r.len * g.pageSize < n
  {
    hide OwnOk, UsageOk, NoRepeats, ZoneIndex, AlignUp;
    if n < limit {
      var c := ZoneIndex(n).0;
      ZoneIndexRight(n);
      forall y, j: nat | y in s.zones && s.zones[y].size == ZoneIndex(n).1
                         && s.zones[y].off + (j + 1) * s.zones[y].size <= g.zonePages * g.pageSize
        ensures LiveIn(s.zones, y, j)
      {
        hide ListsOk;
        ClassFull(s.zones, s.lists, c, y);
        FullLive(s.zones[y], g.header, g.zonePages * g.pageSize, j);
      }
    } else {
      UpIs(n, g.pageSize);
      var k := AlignUp(n, g.pageSize) / g.pageSize;
      forall r | r in s.runs
        ensures r.len * g.pageSize < n
      {
        var i :| 0 <= i < |s.runs| && s.runs[i] == r;
        TooShort(r.len, k, n, g.pageSize);
      }
    }
  }

  lemma TooShort(len: nat, k: nat, n: nat, pageSize: nat)
    requires len < k && k * pageSize < n + pageSize
    ensures len * pageSize < n
  {
    Product(len + 1, k, pageSize);
    Distributed(len, 1, pageSize);
  }

  /** A zone whose class has an empty list is full. */
  lemma ClassFull(zones: map<int, Zone>, lists: seq<seq<int>>, c: nat, y: int)
    requires ListsOk(zones, lists) && c < NZONES && lists[c] == [] && y in zones && zones[y].cls < NZONES
    requires ChunkSize(zones[y].cls) == ChunkSize(c)
    ensures zones[y].nfree == 0
  {
    assert ListOk(zones, lists[c], c);
    hide ListsOk, ChunkSize;
    if zones[y].cls < c {
      ChunkSizesDiffer(zones[y].cls, c);
    } else if c < zones[y].cls {
      ChunkSizesDiffer(c, zones[y].cls);
    }
  }

  /** All chunks that fit behind the header of a full zone are live. */
  lemma FullLive(z: Zone, header: nat, bytes: nat, j: nat)
    requires ZoneOk(z, header, bytes) && z.nfree == 0 && z.off + (j + 1) * z.size <= bytes
    ensures Live(z, j)
  {
    if j >= z.nmax {
      Product(z.nmax + 1, j + 1, z.size);
    }
  }

  /** What a small allocation does to the zones and lists: a zone that gives its last chunk leaves its list; a new zone is
      the one zone of its list, out of the free zones if there are any, and otherwise off the front of the first run. */
  ghost predicate TookChunk(g: Layout, s: Snap, s': Snap, n: nat, z: int, i: nat) {
    var c := ZoneIndex(n).0;
    && 0 <= c < |s.lists| && z in s'.zones
    && if s.lists[c] != [] then
         && z == s.lists[c][0] && z in s.zones && s.zones[z].nfree > 0 && (s.zones[z].uindex + 1 == s.zones[z].nmax ==> s.zones[z].chunks != [])
         && (s'.zones[z], i) == TakeChunk(s.zones[z]) && s'.zones == s.zones[z := s'.zones[z]]
         && s'.lists == s.lists[c := if s'.zones[z].nfree == 0 then s.lists[c][1..] else s.lists[c]]
         && s'.zoneFree == s.zoneFree && s'.runs == s.runs
       else
         && i == 0 && s'.zones == s.zones[z := s'.zones[z]] && s'.lists == s.lists[c := [z]]
         && s'.zones[z].uindex == 0 && s'.zones[z].chunks == [] && s'.zones[z].size == ZoneIndex(n).1
         && (if s.zoneFree != [] then z == s.zoneFree[0] && s'.zoneFree == s.zoneFree[1..] && s'.runs == s.runs
             else
               && s'.zoneFree == [] && FirstFit(s.runs, g.zonePages) < |s.runs|
               && s'.runs == Taken(s.runs, FirstFit(s.runs, g.zonePages), g.zonePages))
  }

  /** What a free does: the chunk comes first in its zone, and a zone that was full comes first in its list. A zone that
      becomes wholly free while its list has another one leaves it for the front of the free zones, of which there are two
      at most: beyond that its pages go back. */
  ghost predicate Freed(g: Layout, s: Snap, s': Snap, z: int, i: nat) {
    if z in s.zones then
      var zn := s.zones[z];
      && zn.cls < |s.lists|
      && var list := if zn.nfree == 0 then [z] + s.lists[zn.cls] else s.lists[zn.cls];
         if zn.nfree + 1 == zn.nmax && list != [z] then
           && s'.zones == s.zones - {z} && s'.lists == s.lists[zn.cls := Without(list, z)]
           && (if |s.zoneFree| < 2 then s'.zoneFree == [z] + s.zoneFree && s'.runs == s.runs
               else s'.zoneFree == s.zoneFree && s'.runs == Given(s.runs, z, g.zonePages))
         else
           && s'.zones == s.zones[z := zn.(nfree := zn.nfree + 1, chunks := [i] + zn.chunks)] && s'.lists == s.lists[zn.cls := list]
           && s'.zoneFree == s.zoneFree && s'.runs == s.runs
    else
      z in s.claims && s'.zones == s.zones && s'.lists == s.lists && s'.zoneFree == s.zoneFree && s'.runs == Given(s.runs, z, s.claims[z])
  }

  /** A chunk freed into a zone without unused ones, when that zone is full and its list has room for it in front, is the
      very chunk that the next request for its size is given. */
  lemma FreedThenTaken(g: Layout, s: Snap, s': Snap, s'': Snap, n: nat, z: int, i: nat, y: int, j: nat)
    requires SnapOk(g, s) && LiveIn(s.zones, z, i) && s.zones[z].nfree == 0 && s.zones[z].nmax >= 2
    requires 0 < n < 16384 && s.zones[z].cls == ZoneIndex(n).0
    requires Freed(g, s, s', z, i) && TookChunk(g, s', s'', n, y, j)
    ensures (y, j) == (z, i) && s''.zones == s.zones && s''.lists == s.lists
  {
    hide PagesOk, NoRepeats, ZoneIndex, ListsOk, TakeChunk, Without, ZoneOk, Live;
    var zn := s.zones[z];
    FullZone(zn, g.header, g.zonePages * g.pageSize);
    GiveThenTake(zn, i);
    ClassLists(s.zones, s.lists, zn.cls, z);
    assert s'.lists[zn.cls] == [z] + s.lists[zn.cls];
    assert s''.lists[zn.cls] == s.lists[zn.cls];
  }

  lemma FullZone(z: Zone, header: nat, bytes: nat)
    requires ZoneOk(z, header, bytes) && z.nfree == 0
    ensures z.uindex + 1 == z.nmax && z.cls < NZONES
  {
  }

  lemma ClassLists(zones: map<int, Zone>, lists: seq<seq<int>>, c: nat, z: int)
    requires ListsOk(zones, lists) && z in zones && zones[z].cls == c && c < NZONES
    ensures |lists| == NZONES && (zones[z].nfree == 0 ==> z !in lists[c])
  {
    assert ListOk(zones, lists[c], c);
  }

  /** What the alignment of a new pointer depends on. */
  lemma AllocAligned(g: Layout, s: Snap, start: int, limit: nat, n: nat, z: int, i: nat, p: int)
    requires SnapOk(g, s) && AliveIn(g, s, z, i, p) && limit <= 16384
    requires if n >= limit then p == z * g.pageSize else z in s.zones && s.zones[z].size == ZoneIndex(n).1
    ensures z in s.zones && PowerOfTwo(s.zones[z].size) ==>
      (Multiple(start + p, s.zones[z].size) <==> Multiple(start + z * g.pageSize, s.zones[z].size))
    ensures PowerOfTwo(n) ==> (Multiple(start + p, n) <==> Multiple(start + z * g.pageSize, n))
  {
    hide ZonesOk, PagesOk, PowerOfTwo, Multiple, LiveIn, ZoneIndex;
    if z in s.zones && PowerOfTwo(s.zones[z].size) {
      AlignedIff(g, s, start, z, i, p);
    }
    if n < limit && PowerOfTwo(n) {
      PowerRequest(n);
      ChunkMultiple(g, s, z, i, p);
      MultipleOf(p - z * g.pageSize, s.zones[z].size, n);
      AlignedAlike(start + z * g.pageSize, p - z * g.pageSize, n);
    }
  }

  lemma ChunkMultiple(g: Layout, s: Snap, x: int, k: nat, q: int)
    requires SnapOk(g, s) && AliveIn(g, s, x, k, q) && x in s.zones && PowerOfTwo(s.zones[x].size)
    ensures Multiple(q - x * g.pageSize, s.zones[x].size)
  {
    hide ListsOk, PagesOk, NoRepeats, ChunkSize, Offset, PowerOfTwo, Multiple;
    assert ZoneOk(s.zones[x], g.header, g.zonePages * g.pageSize);
    WithinZone(g.header, s.zones[x].size, k);
  }

  lemma MultipleOf(x: int, b: int, a: int)
    requires Multiple(x, b) && Multiple(b, a)
    ensures Multiple(x, a)
  {
    var p, q := x / b, b / a;
    assert x == p * b && b == q * a;
    assert p * (q * a) == (p * q) * a;
    MulMod(p * q, a);
  }

  lemma NoRegions(g: Layout, node: nat, runs: seq<Run>, smalls: set<int>)
    ensures AllocRegions(g, node, {}, runs, smalls)
  {
  }

  /** Claims lie clear of each other, in pages and so in bytes. */
  lemma ClaimsApart(own: map<int, int>, claims: map<int, nat>, runs: seq<Run>, first: int, last: int, b: int, d: int, pageSize: nat)
    requires OwnOk(own, claims, runs, first, last) && b in claims && d in claims && b < d
    ensures (b + claims[b]) * pageSize <= d * pageSize
  {
    hide InRuns;
    assert Holds(claims, d, d);
    assert !Holds(claims, b, d);
    Product(b + claims[b], d, pageSize);
  }

  lemma Following(i: nat, m: nat, size: nat)
    requires i < m
    ensures i * size + size <= m * size
  {
    Product(i + 1, m, size);
    assert (i + 1) * size == i * size + size;
  }

  lemma Distributed(z: int, n: nat, a: nat)
    ensures (z + n) * a == z * a + n * a
  {
  }

  lemma ChunkInside(zone: Zone, i: nat, header: nat, bytes: nat)
    requires ZoneOk(zone, header, bytes) && i < zone.nmax
    ensures header <= zone.off + i * zone.size && zone.off + i * zone.size + zone.size <= bytes
  {
    hide ChunkSize, NoRepeats;
    Following(i, zone.nmax, zone.size);
    Product(0, i, zone.size);
  }

  /** No byte belongs to two chunks: different chunks of one zone and of different zones lie clear of each other. */
  lemma ChunksApart(own: map<int, int>, usage: map<int, Usage>, claims: map<int, nat>, zones: map<int, Zone>, zoneFree: seq<int>,
                    lists: seq<seq<int>>, zonePages: nat, header: nat, pageSize: nat, runs: seq<Run>, first: int, last: int,
                    z: int, i: nat, y: int, j: nat)
    requires PagesOk(own, usage, claims, zones.Keys + (set x | x in zoneFree), zonePages, runs, first, last)
    requires ZonesOk(zones, lists, zoneFree, header, zonePages * pageSize)
    requires z in zones && y in zones && i < zones[z].nmax && j < zones[y].nmax && (z < y || (z == y && i < j))
    ensures z * pageSize + (zones[z].off + i * zones[z].size) + zones[z].size <= y * pageSize + (zones[y].off + j * zones[y].size)
  {
    hide ListsOk, OwnOk, InRuns, NoRepeats, ZoneOk;
    assert z in zones.Keys && y in zones.Keys;
    if z == y {
      Following(i, j, zones[z].size);
    } else {
      ClaimsApart(own, claims, runs, first, last, z, y, pageSize);
      ChunkInside(zones[z], i, header, zonePages * pageSize);
      ChunkInside(zones[y], j, header, zonePages * pageSize);
      Distributed(z, zonePages, pageSize);
    }
  }

  /** Nor does a chunk reach into a large allocation, or a large allocation into a chunk. */
  lemma LargeApart(own: map<int, int>, usage: map<int, Usage>, claims: map<int, nat>, zones: map<int, Zone>, zoneFree: seq<int>,
                   lists: seq<seq<int>>, zonePages: nat, header: nat, pageSize: nat, runs: seq<Run>, first: int, last: int,
                   z: int, i: nat, b: int)
    requires PagesOk(own, usage, claims, zones.Keys + (set x | x in zoneFree), zonePages, runs, first, last)
    requires ZonesOk(zones, lists, zoneFree, header, zonePages * pageSize)
    requires z in zones && i < zones[z].nmax && b in claims && b != z
    ensures z * pageSize + (zones[z].off + i * zones[z].size) + zones[z].size <= b * pageSize
         || (b + claims[b]) * pageSize <= z * pageSize + (zones[z].off + i * zones[z].size)
  {
    hide ListsOk, OwnOk, InRuns, NoRepeats, ZoneOk;
    assert z in zones.Keys;
    ChunkInside(zones[z], i, header, zonePages * pageSize);
    Distributed(z, zonePages, pageSize);
    if z < b {
      ClaimsApart(own, claims, runs, first, last, z, b, pageSize);
    } else {
      ClaimsApart(own, claims, runs, first, last, b, z, pageSize);
    }
  }

  /** What an allocation leaves where it was, and what it hands out. */
  lemma AllocStays(zones: map<int, Zone>, claims: map<int, nat>, smalls: set<int>, zones': map<int, Zone>, claims': map<int, nat>,
                   smalls': set<int>, pageSize: nat, limit: nat, n: nat, y: int, j: nat, r: int)
    requires zones.Keys <= smalls && zones'.Keys <= smalls' && pageSize > 0 && smalls <= claims.Keys
    requires LargeKept(claims, smalls, claims', smalls')
    requires r == NULL ==> zones' == zones && claims' == claims
    requires r != NULL && n >= limit ==>
      zones' == zones && smalls' <= claims.Keys && y !in claims && r == y * pageSize && claims' == claims[y := AlignUp(n, pageSize) / pageSize]
    requires r != NULL && n < limit ==>
      y in zones' && r == y * pageSize + (zones'[y].off + j * zones'[y].size) && n <= zones'[y].size
      && !LiveIn(zones, y, j) && LiveIn(zones', y, j) && OthersSame(zones, zones', y, j)
    ensures ChunksStay(zones, zones', y, j) && LargeStays(claims, smalls, claims', smalls', y)
    ensures r != NULL ==> Alive(zones', claims', smalls', pageSize, y, j, r) && n <= Extent(zones', claims', pageSize, y)
    ensures r != NULL ==> !Alive(zones, claims, smalls, pageSize, y, j, r)
    ensures r != NULL ==> !LiveIn(zones, y, j) && (y in zones || y !in claims || y in smalls)
  {
    hide Live, AlignUp;
    UpIs(n, pageSize);
    assert y in zones ==> y in zones.Keys;
    assert y in zones' ==> y in zones'.Keys;
    assert y in smalls ==> y in claims.Keys;
  }

  lemma FoundAlive(own: map<int, int>, usage: map<int, Usage>, claims: map<int, nat>, zones: map<int, Zone>, zoneFree: seq<int>,
                   lists: seq<seq<int>>, zonePages: nat, header: nat, pageSize: nat, runs: seq<Run>, first: int, last: int, z: int, i: nat, p: int)
    requires PagesOk(own, usage, claims, zones.Keys + (set x | x in zoneFree), zonePages, runs, first, last) && 0 <= first
    requires ZonesOk(zones, lists, zoneFree, header, zonePages * pageSize) && pageSize > 0
    requires Alive(zones, claims, zones.Keys + (set x | x in zoneFree), pageSize, z, i, p)
    ensures p / pageSize in usage
    ensures var u := usage[p / pageSize];
      if z in zones then u.kind == Small && p / pageSize - u.size == z && Extent(zones, claims, pageSize, z) == zones[z].size
      else u.kind == Large && u.size * pageSize == Extent(zones, claims, pageSize, z)
  {
    hide PagesOk, ZonesOk, LiveIn;
    Found(own, usage, claims, zones, zoneFree, lists, zonePages, header, pageSize, runs, first, last, z, i, p);
  }

  /** zoneindex does not make a size smaller, whatever it is. */
  lemma RoundsUp(n: nat)
    ensures ZoneIndex(n).1 >= n
  {
    if 0 < n < 16384 {
      ZoneIndexRight(n);
    }
  }

  lemma SmallsClaimed(own: map<int, int>, usage: map<int, Usage>, claims: map<int, nat>, smalls: set<int>, zonePages: nat,
                      runs: seq<Run>, first: int, last: int)
    requires PagesOk(own, usage, claims, smalls, zonePages, runs, first, last)
    ensures smalls <= claims.Keys
  {
    hide OwnOk;
    forall b | b in smalls
      ensures b in claims.Keys
    {
      assert b in claims;
    }
  }

  lemma SameStays(zones: map<int, Zone>, claims: map<int, nat>, smalls: set<int>, claims': map<int, nat>, smalls': set<int>, z: int, i: nat)
    requires LargeKept(claims, smalls, claims', smalls')
    ensures ChunksStay(zones, zones, z, i) && LargeStays(claims, smalls, claims', smalls', z)
  {
    hide Live;
  }

  /** A pointer that is live is not the one that is handed out. */
  lemma AnotherOne(zones: map<int, Zone>, claims: map<int, nat>, smalls: set<int>, pageSize: nat, z: int, i: nat, p: int, y: int, j: nat)
    requires Alive(zones, claims, smalls, pageSize, z, i, p)
    requires !LiveIn(zones, y, j) && (y in zones || y !in claims || y in smalls)
    ensures z == y ==> z in zones && i != j
  {
    hide Live;
  }

  lemma FreeStays(zones: map<int, Zone>, claims: map<int, nat>, smalls: set<int>, zones': map<int, Zone>, claims': map<int, nat>,
                  smalls': set<int>, z: int, i: nat)
    requires if z in zones then OthersSame(zones, zones', z, i) && LargeKept(claims, smalls, claims', smalls')
             else zones' == zones && claims' == claims - {z} && smalls' == smalls
    ensures ChunksStay(zones, zones', z, i) && LargeStays(claims, smalls, claims', smalls', z)
  {
    hide Live;
  }

  /** A pointer that is live and not the one at issue is live afterwards, with the room it had. */
  lemma StaysOn(zones: map<int, Zone>, claims: map<int, nat>, smalls: set<int>, zones': map<int, Zone>, claims': map<int, nat>,
                smalls': set<int>, z: int, i: nat, pageSize: nat, x: int, k: nat, p: int)
    requires zones.Keys <= smalls && zones'.Keys <= smalls'
    requires ChunksStay(zones, zones', z, i) && LargeStays(claims, smalls, claims', smalls', z)
    requires Alive(zones, claims, smalls, pageSize, x, k, p) && (x == z ==> x in zones && k != i)
    ensures Alive(zones', claims', smalls', pageSize, x, k, p) && (x in zones <==> x in zones')
    ensures Extent(zones', claims', pageSize, x) == Extent(zones, claims, pageSize, x)
  {
    hide Live;
    assert x in zones' ==> x in zones'.Keys;
  }

  /** An allocation and then a free. */
  lemma BothStay(zones: map<int, Zone>, claims: map<int, nat>, smalls: set<int>, zones1: map<int, Zone>, claims1: map<int, nat>,
                 smalls1: set<int>, zones2: map<int, Zone>, claims2: map<int, nat>, smalls2: set<int>, y: int, j: nat, z: int, i: nat)
    requires ChunksStay(zones, zones1, y, j) && LargeStays(claims, smalls, claims1, smalls1, y)
    requires ChunksStay(zones1, zones2, z, i) && LargeStays(claims1, smalls1, claims2, smalls2, z)
    requires !LiveIn(zones, y, j) && (y in claims ==> y in smalls)
    ensures ChunksStay(zones, zones2, z, i) && LargeStays(claims, smalls, claims2, smalls2, z)
  {
    hide Live;
  }

  /** Two live pointers: their bytes lie in the heap and clear of each other. */
  lemma AliveApart(own: map<int, int>, usage: map<int, Usage>, claims: map<int, nat>, zones: map<int, Zone>, zoneFree: seq<int>,
                   lists: seq<seq<int>>, zonePages: nat, header: nat, pageSize: nat, runs: seq<Run>, first: int, last: int,
                   z: int, i: nat, p: int, y: int, j: nat, q: int)
    requires PagesOk(own, usage, claims, zones.Keys + (set x | x in zoneFree), zonePages, runs, first, last) && 0 <= first
    requires ZonesOk(zones, lists, zoneFree, header, zonePages * pageSize) && pageSize > 0
    requires Alive(zones, claims, zones.Keys + (set x | x in zoneFree), pageSize, z, i, p)
    requires Alive(zones, claims, zones.Keys + (set x | x in zoneFree), pageSize, y, j, q) && (z == y ==> z in zones && i != j)
    ensures 0 <= p && p + Extent(zones, claims, pageSize, z) <= last * pageSize
    ensures 0 <= q && q + Extent(zones, claims, pageSize, y) <= last * pageSize
    ensures p + Extent(zones, claims, pageSize, z) <= q || q + Extent(zones, claims, pageSize, y) <= p
  {
    hide ListsOk, OwnOk, InRuns, NoRepeats, UsageOk, ZoneOk;
    var smalls := zones.Keys + (set x | x in zoneFree);
    InsideHeap(own, usage, claims, zones, zoneFree, lists, zonePages, header, pageSize, runs, first, last, z, i, p);
    InsideHeap(own, usage, claims, zones, zoneFree, lists, zonePages, header, pageSize, runs, first, last, y, j, q);
    LiveNumber(zones, lists, zoneFree, header, zonePages * pageSize, z, i);
    LiveNumber(zones, lists, zoneFree, header, zonePages * pageSize, y, j);
    hide ZonesOk, Live;
    if z in zones {
      if y in zones {
        if z < y || (z == y && i < j) {
          ChunksApart(own, usage, claims, zones, zoneFree, lists, zonePages, header, pageSize, runs, first, last, z, i, y, j);
        } else {
          ChunksApart(own, usage, claims, zones, zoneFree, lists, zonePages, header, pageSize, runs, first, last, y, j, z, i);
        }
      } else {
        LargeApart(own, usage, claims, zones, zoneFree, lists, zonePages, header, pageSize, runs, first, last, z, i, y);
        Distributed(y, claims[y], pageSize);
      }
    } else if y in zones {
      LargeApart(own, usage, claims, zones, zoneFree, lists, zonePages, header, pageSize, runs, first, last, y, j, z);
      Distributed(z, claims[z], pageSize);
    } else {
      Distributed(y, claims[y], pageSize);
      Distributed(z, claims[z], pageSize);
      if z < y {
        ClaimsApart(own, claims, runs, first, last, z, y, pageSize);
      } else {
        ClaimsApart(own, claims, runs, first, last, y, z, pageSize);
      }
    }
  }

  lemma LiveNumber(zones: map<int, Zone>, lists: seq<seq<int>>, zoneFree: seq<int>, header: nat, bytes: nat, z: int, i: nat)
    requires ZonesOk(zones, lists, zoneFree, header, bytes)
    ensures z in zones && LiveIn(zones, z, i) ==> i < zones[z].nmax
  {
    hide ListsOk, NoRepeats, ChunkSize;
  }

  lemma InsideHeap(own: map<int, int>, usage: map<int, Usage>, claims: map<int, nat>, zones: map<int, Zone>, zoneFree: seq<int>,
                   lists: seq<seq<int>>, zonePages: nat, header: nat, pageSize: nat, runs: seq<Run>, first: int, last: int, z: int, i: nat, p: int)
    requires PagesOk(own, usage, claims, zones.Keys + (set x | x in zoneFree), zonePages, runs, first, last) && 0 <= first
    requires ZonesOk(zones, lists, zoneFree, header, zonePages * pageSize) && pageSize > 0
    requires Alive(zones, claims, zones.Keys + (set x | x in zoneFree), pageSize, z, i, p)
    ensures 0 <= p && p + Extent(zones, claims, pageSize, z) <= last * pageSize
  {
    hide ListsOk, OwnOk, InRuns, NoRepeats, ZoneOk;
    LiveNumber(zones, lists, zoneFree, header, zonePages * pageSize, z, i);
    hide Live;
    assert z in zones ==> z in zones.Keys;
    ClaimInside(own, claims, runs, first, last, z);
    Product(z + claims[z], last, pageSize);
    Product(0, z, pageSize);
    Distributed(z, claims[z], pageSize);
    if z in zones {
      ChunkInside(zones[z], i, header, zonePages * pageSize);
    }
  }

  lemma ClaimInside(own: map<int, int>, claims: map<int, nat>, runs: seq<Run>, first: int, last: int, b: int)
    requires OwnOk(own, claims, runs, first, last) && b in claims
    ensures first <= b && b + claims[b] <= last
  {
    hide InRuns;
    assert Holds(claims, b, b) && Holds(claims, b, b + claims[b] - 1);
  }

  lemma LargeSelf(claims: map<int, nat>, smalls: set<int>)
    ensures LargeKept(claims, smalls, claims, smalls)
  {
  }

  lemma LargeMore(claims: map<int, nat>, smalls: set<int>, b: int, n: nat)
    ensures b !in claims ==> LargeKept(claims, smalls, claims[b := n], smalls)
  {
  }

  lemma ListsLength(zones: map<int, Zone>, lists: seq<seq<int>>)
    requires ListsOk(zones, lists)
    ensures |lists| == NZONES
  {
  }

  lemma LiveThere(zones: map<int, Zone>, z: int, i: nat)
    requires LiveIn(zones, z, i)
    ensures z in zones
  {
  }

  lemma GivenFields(z: Zone, i: nat)
    ensures GiveChunk(z, i).cls == z.cls && GiveChunk(z, i).nfree == z.nfree + 1 && GiveChunk(z, i).nmax == z.nmax
    ensures GiveChunk(z, i).size == z.size && GiveChunk(z, i) == z.(nfree := z.nfree + 1, chunks := [i] + z.chunks)
  {
  }

  /** A request below the zone limit becomes a chunk of no more than the limit. */
  lemma ClassFits(n: nat, limit: nat)
    requires 0 < n < limit && (limit == 8192 || limit == 16384)
    ensures 8 <= ZoneIndex(n).1 <= limit
  {
    ZoneIndexRight(n);
    hide AlignUp, ChunkSize;
    UpIs(n, 8);
    UpIs(n, 16);
    UpIs(n, 32);
    UpIs(n, 64);
    UpIs(n, 128);
    UpIs(n, 256);
    UpIs(n, 512);
    UpIs(n, 1024);
  }

  lemma AddrPositive(z: int, pageSize: nat, off: nat, i: nat, size: nat)
    requires z >= 0
    ensures z * pageSize + (off + i * size) >= 0
  {
  }

  /** A zone lies in the heap. */
  lemma ZonePositive(own: map<int, int>, usage: map<int, Usage>, claims: map<int, nat>, smalls: set<int>, zonePages: nat,
                     runs: seq<Run>, first: int, last: int, z: int)
    requires PagesOk(own, usage, claims, smalls, zonePages, runs, first, last) && z in smalls
    ensures z >= first
  {
    hide InRuns;
    assert z in claims;
    assert Holds(claims, z, z);
  }

  lemma FreeZone(own: map<int, int>, usage: map<int, Usage>, claims: map<int, nat>, smalls: set<int>, zonePages: nat,
                 runs: seq<Run>, first: int, last: int, z: int)
    requires PagesOk(own, usage, claims, smalls, zonePages, runs, first, last) && z in smalls
    ensures z in claims && claims[z] == zonePages && z >= first
  {
    hide OwnOk;
    ZonePositive(own, usage, claims, smalls, zonePages, runs, first, last, z);
  }

  /** memusage leads a live pointer back to its zone and chunk, or to its pages. */
  lemma Found(own: map<int, int>, usage: map<int, Usage>, claims: map<int, nat>, zones: map<int, Zone>, zoneFree: seq<int>,
              lists: seq<seq<int>>, zonePages: nat, header: nat, pageSize: nat, runs: seq<Run>, first: int, last: int, z: int, i: nat, p: int)
    requires PagesOk(own, usage, claims, zones.Keys + (set x | x in zoneFree), zonePages, runs, first, last) && 0 <= first
    requires ZonesOk(zones, lists, zoneFree, header, zonePages * pageSize) && pageSize > 0
    requires if z in zones then LiveIn(zones, z, i) && p == z * pageSize + (zones[z].off + i * zones[z].size)
             else z in claims && z !in zones.Keys + (set x | x in zoneFree) && p == z * pageSize
    ensures p / pageSize in usage
    ensures var u := usage[p / pageSize];
      if z in zones then
        && u.kind == Small && p / pageSize - u.size == z && zones[z].size > 0
        && (p - z * pageSize - zones[z].off) / zones[z].size == i
      else u == Usage(Large, claims[z]) && p / pageSize == z
  {
    hide OwnOk, UsageOk, ListsOk, InRuns, ChunkSize;
    var smalls := zones.Keys + (set x | x in zoneFree);
    if z in zones {
      FreeZone(own, usage, claims, smalls, zonePages, runs, first, last, z);
      SomeSize(zones[z].cls);
      ChunkPage(z, zones[z], i, header, pageSize, zonePages);
    } else {
      DivModUnique(z * pageSize, pageSize, z, 0);
    }
    LookUp(own, usage, claims, smalls, zonePages, runs, first, last, z, p / pageSize);
  }

  lemma SomeSize(c: nat)
    requires c < NZONES
    ensures ChunkSize(c) > 0
  {
  }

  lemma SomePages(size: nat, pageSize: nat)
    requires size > 0 && pageSize > 0
    ensures AlignUp(size, pageSize) / pageSize > 0
  {
    hide AlignUp;
    UpIs(size, pageSize);
    var q := AlignUp(size, pageSize) / pageSize;
    assert q == 0 ==> q * pageSize == 0;
  }

  lemma ClaimsStart(own: map<int, int>, claims: map<int, nat>, runs: seq<Run>, first: int, last: int, n: nat)
    requires OwnOk(own, claims, runs, first, last) && Ordered(runs) && n > 0 && FirstFit(runs, n) < |runs| && 0 <= first
    ensures runs[FirstFit(runs, n)].start >= 0
  {
    hide Ordered, InRuns, FirstFit;
    TakenPages(runs, FirstFit(runs, n), n, runs[FirstFit(runs, n)].start);
  }

  lemma EmptyLists(lists: seq<seq<int>>)
    requires |lists| == NZONES && forall c: nat :: c < NZONES ==> lists[c] == []
    ensures ListsOk(map[], lists)
  {
  }

  /** No zones, no large allocations, and the rest of the pages free. */
  lemma FreshOk(lists: seq<seq<int>>, zonePages: nat, header: nat, pageSize: nat, first: int, n: nat)
    requires |lists| == NZONES && forall c: nat :: c < NZONES ==> lists[c] == []
    ensures ZonesOk(map[], lists, [], header, zonePages * pageSize)
    ensures PagesOk(map[], map[], map[], {}, zonePages, RunOf(first, n), first, first + n)
    ensures Sum(HandedOut(map[], map[], {}, pageSize)) == 0
  {
    EmptyLists(lists);
    OneRun(first, n);
    hide ListsOk, OwnOk;
    assert HandedOut(map[], map[], {}, pageSize) == map[];
  }

  /** The pages of one run, if there are any. */
  function RunOf(first: int, n: nat): seq<Run> {
    if n > 0 then [Run(first, n)] else []
  }

  lemma OneRun(first: int, n: nat)
    ensures OwnOk(map[], map[], RunOf(first, n), first, first + n)
  {
    assert [Run(first, n)][1..] == [];
    forall p
      ensures InRuns(RunOf(first, n), p) <==> first <= p < first + n
    {
    }
  }

  /** memusage needs no more pages than there are, and at least one. */
  lemma TableFits(npages: nat, entry: nat, pageSize: nat)
    requires 0 < entry <= pageSize && npages > 0
    ensures 0 < AlignUp(npages * entry, pageSize) / pageSize <= npages
    ensures AlignUp(npages * entry, pageSize) / pageSize * pageSize == AlignUp(npages * entry, pageSize)
  {
    Product(1, npages, entry);
    Product(entry, pageSize, npages);
    UpIs(npages * entry, pageSize);
    MulMod(npages, pageSize);
    AlignUpLeast(npages * entry, pageSize, npages * pageSize);
    var q := AlignUp(npages * entry, pageSize) / pageSize;
    if q > npages {
      Product(npages + 1, q, pageSize);
    }
  }

  // ---------------------------------------------------------------- when alignment is lost

  /** What one run of pages gives. */
  lemma OneRunGives(a: int, m: nat, k: nat)
    requires 0 < k <= m
    ensures var runs := RunOf(a, m);
      |runs| == 1 && FirstFit(runs, k) == 0 && RunFor(runs, k) == a && k <= runs[0].len && Taken(runs, 0, k) == RunOf(a + k, m - k)
  {
  }

  /** The first zone of a heap that has none goes to the front of its pages. */
  lemma FirstZone(n: nat, limit: nat, pageSize: nat, zonePages: nat, lists: seq<seq<int>>, a: int, m: nat)
    requires 0 < n < limit <= 16384 && pageSize > 0 && 0 < zonePages <= m && lists == seq(NZONES, _ => [])
    ensures !Exhausted(n, limit, pageSize, zonePages, lists, [], RunOf(a, m))
    ensures Chosen(n, limit, pageSize, zonePages, lists, [], RunOf(a, m)) == a
  {
    hide ZoneIndex, RunFor, FirstFit;
    ZoneIndexRight(n);
    OneRunGives(a, m, zonePages);
  }

  /** So do k pages. */
  lemma FirstPages(k: nat, limit: nat, pageSize: nat, zonePages: nat, lists: seq<seq<int>>, a: int, m: nat)
    requires 0 < k <= m && pageSize > 0 && k * pageSize >= limit
    ensures AlignUp(k * pageSize, pageSize) / pageSize == k
    ensures !Exhausted(k * pageSize, limit, pageSize, zonePages, lists, [], RunOf(a, m))
    ensures Chosen(k * pageSize, limit, pageSize, zonePages, lists, [], RunOf(a, m)) == a
  {
    hide ZoneIndex, RunFor, FirstFit, AlignUp;
    MulMod(k, pageSize);
    AlignUpFixed(k * pageSize, pageSize);
    DivModUnique(k * pageSize, pageSize, k, 0);
    OneRunGives(a, m, k);
  }

  /** Behind k pages alignment is kept exactly if they make up a multiple of size. */
  lemma NextPages(start: int, first: nat, k: nat, pageSize: nat, size: nat)
    requires size > 0 && Multiple(start + first * pageSize, size)
    ensures Multiple(start + (first + k) * pageSize, size) <==> Multiple(k * pageSize, size)
  {
    hide Multiple;
    Distributed(first, k, pageSize);
    if Multiple(start + first * pageSize + k * pageSize, size) {
      AddMod(start + first * pageSize + k * pageSize, start + first * pageSize, size);
    }
    if Multiple(k * pageSize, size) {
      AddMod(start + first * pageSize, k * pageSize, size);
    }
  }

  /** The number of pages to set aside first: enough for a large request, and not a multiple of size. */
  method Skip(limit: nat, pageSize: nat, size: nat) returns (k: nat)
    requires 0 < limit && 0 < pageSize && 0 < size && !Multiple(pageSize, size)
    ensures limit <= k * pageSize <= AlignUp(limit, pageSize) + pageSize && k > 0 && !Multiple(k * pageSize, size)
  {
    hide Multiple;
    k := AlignUp(limit, pageSize) / pageSize;
    UpIs(limit, pageSize);
    if Multiple(k * pageSize, size) {
      if Multiple((k + 1) * pageSize, size) {
        AddMod((k + 1) * pageSize, k * pageSize, size);
      }
      k := k + 1;
    }
  }

  /** A heap that has no zone, and m free pages from a on. */
  ghost predicate Bare(slab: Slab, a: int, m: nat)
    reads slab, slab.pages
  {
    && slab.Valid() && slab.Counted() && slab.zones == map[] && slab.lists == seq(NZONES, _ => []) && slab.zoneFree == []
    && slab.pages.runs == RunOf(a, m)
  }

  lemma BareIs(slab: Slab, a: int, m: nat)
    requires slab.Valid() && slab.Counted() && slab.zones == map[] && slab.lists == seq(NZONES, _ => []) && slab.zoneFree == []
    requires slab.pages.runs == RunOf(a, m)
    ensures Bare(slab, a, m)
  {
  }

  lemma Fitting(a: nat, k: nat, n: nat, m: nat, pageSize: nat)
    requires 0 < pageSize && a * pageSize + k * pageSize + n * pageSize <= m * pageSize
    ensures a + k + n <= m
  {
    Distributed(a, k, pageSize);
    Distributed(a + k, n, pageSize);
    Distributed(m, 1, pageSize);
    if a + k + n > m {
      Product(m + 1, a + k + n, pageSize);
    }
  }

  method SkipPages(slab: Slab, a: int, m: nat, k: nat) returns (p: int)
    requires Bare(slab, a, m) && 0 < k <= m && k * slab.pageSize >= slab.limit
    modifies slab, slab.pages, slab.ram, slab.ram.data
    ensures Bare(slab, a + k, m - k) && p == a * slab.pageSize
  {
    hide ZoneIndex, FirstFit, Taken, RunFor, Exhausted, Chosen, ZonesOk, PagesOk, Ordered, SlabPages.Linked, Sum, HandedOut, OthersSame,
      LargeKept, LargeStays, ChunksStay, BytesStay, LiveIn, AlignUp, PowerOfTwo, Multiple, Alive;
    FirstPages(k, slab.limit, slab.pageSize, slab.zonePages, slab.lists, a, m);
    OneRunGives(a, m, k);
    ghost var z, i;
    p, z, i := slab.Alloc(k * slab.pageSize);
  }

  method FirstChunk(slab: Slab, a: int, m: nat, n: nat) returns (p: int, ghost z: int, ghost i: nat)
    requires Bare(slab, a, m) && 0 < n < slab.limit && slab.zonePages <= m && PowerOfTwo(ZoneIndex(n).1)
    modifies slab, slab.pages, slab.ram, slab.ram.data
    ensures slab.Valid() && z == a && slab.LiveAt(z, i, p) && slab.Room(z) == ZoneIndex(n).1
    ensures Multiple(slab.start + p, ZoneIndex(n).1) <==> Multiple(slab.start + a * slab.pageSize, ZoneIndex(n).1)
  {
    hide ZoneIndex, FirstFit, Taken, RunFor, Exhausted, Chosen, ZonesOk, PagesOk, Ordered, SlabPages.Linked, Sum, HandedOut, OthersSame,
      LargeKept, LargeStays, ChunksStay, BytesStay, LiveIn, AlignUp, PowerOfTwo, Multiple, Alive;
    FirstZone(n, slab.limit, slab.pageSize, slab.zonePages, slab.lists, a, m);
    p, z, i := slab.Alloc(n);
  }

  /** If a power of two does not divide both the page size and the address of the heap, a run of at most two allocations
      ends with a live chunk of that size that is not aligned to it. With AlignedEverywhere, this is the exact condition
      for a chunk size to be aligned in every run. */
  method LosesAlignment(start: int, pageSize: nat, header: nat, link: nat, node: nat, entry: nat, npages: nat, n: nat)
    returns (slab: Slab, p: int, ghost z: int, ghost i: nat)
    requires 8 <= pageSize && Multiple(ZALLOC_MIN_ZONE_SIZE, pageSize) && 0 < header <= 64 && link <= 8 && node <= pageSize
    requires 0 < entry <= pageSize && npages > 0 && 0 < n < LimitOf(npages * pageSize)
    requires AlignUp(npages * entry, pageSize) + AlignUp(LimitOf(npages * pageSize), pageSize) + pageSize + ZoneSizeOf(npages * pageSize)
             <= npages * pageSize
    requires PowerOfTwo(ZoneIndex(n).1) && !(Multiple(pageSize, ZoneIndex(n).1) && Multiple(start, ZoneIndex(n).1))
    ensures fresh(slab) && slab.Valid() && slab.start == start && slab.pageSize == pageSize
    ensures slab.LiveAt(z, i, p) && slab.Room(z) == ZoneIndex(n).1 && !Multiple(start + p, ZoneIndex(n).1)
  {
    hide Multiple, AlignUp, ZoneIndex, Bare, Kept, Sum, HandedOut, PagesOk, ZonesOk, ZoneSizeOf, LimitOf;
    slab := new Slab(start, pageSize, header, link, node, entry, npages);
    BareIs(slab, slab.first, slab.last - slab.first);
    var size, room := ZoneIndex(n).1, slab.last - slab.first;
    var a := slab.first;
    if Multiple(start + a * pageSize, size) {
      if Multiple(pageSize, size) {
        TimesMultiple(a, pageSize, size);
        AlignedAlike(start, a * pageSize, size);
      }
      var k := Skip(slab.limit, pageSize, size);
      Fitting(a, k, slab.zonePages, npages, pageSize);
      NextPages(start, a, k, pageSize, size);
      var p0 := SkipPages(slab, a, room, k);
      a, room := a + k, room - k;
    } else {
      Fitting(a, 0, slab.zonePages, npages, pageSize);
    }
    p, z, i := FirstChunk(slab, a, room, n);
  }

  /** Two pages are a power of two: a request for them is a large one, and a request for a byte less gets a chunk of them. */
  lemma TwoPagesAre()
    ensures PowerOfTwo(8192) && ZoneIndex(8191).1 == 8192
  {
    hide PowerOfTwo;
    PowerOf(13);
    assert B.Pow2(13) == 8192;
  }

  /** memusage takes one page for up to 1024 of them. */
  lemma OnePageTable(npages: nat)
    requires 0 < npages <= 1024
    ensures AlignUp(npages * 4, 4096) == 4096 && ZoneSizeOf(npages * 4096) == 32768 && LimitOf(npages * 4096) == 8192
  {
  }

  /** On a heap of up to 4 MiB in pages of 4096, at an address that is a multiple of two pages, memusage takes one page, so
      what comes behind it starts on an odd one. A request for 8192 goes to the page allocator and gets page 1; a request
      for 8191 gets a chunk of 8192 in a zone on page 3. Neither is a multiple of 8192. */
  method TwoPages(start: int, npages: nat) returns (slab: Slab, p: int, q: int, ghost z: int, ghost i: nat)
    requires Multiple(start, 8192) && 11 <= npages <= 1024
    ensures fresh(slab) && slab.Valid() && slab.start == start
    ensures p == 4096 && !Multiple(start + p, 8192)
    ensures z == 3 && slab.LiveAt(z, i, q) && slab.Room(z) == 8192 && !Multiple(start + q, 8192)
  {
    hide PowerOfTwo, AlignUp, ZoneIndex, Bare, Kept, Sum, HandedOut, PagesOk, ZonesOk, ZoneSizeOf, LimitOf;
    TwoPagesAre();
    OnePageTable(npages);
    slab := new Slab(start, 4096, 36, 4, 8, 4, npages);
    BareIs(slab, 1, npages - 1);
    p := SkipPages(slab, 1, npages - 1, 2);
    AlignedAlike(p, start, 8192);
    q, z, i := FirstChunk(slab, 3, npages - 3, 8191);
    AlignedAlike(3 * 4096, start, 8192);
  }
}
