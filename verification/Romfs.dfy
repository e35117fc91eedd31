/** The ROM file system image builder (tools/mkromfs.py), and what a reader of the image finds in it. */
module Romfs {
  import opened Basics

  datatype Entry = File(name: string, data: seq<Byte>) | Folder(name: string, children: seq<Entry>)

  const DIRENT: nat := 16

  // ---------------------------------------------------------------- numbers and names

  /** One 'I' of the struct format: a little-endian unsigned 32-bit word. */
  function Word(x: nat): (r: seq<Byte>)
    requires x < 0x1_0000_0000
    ensures |r| == 4
  {
    [x % 256, x / 256 % 256, x / 65536 % 256, x / 16777216]
  }

  function UnWord(b: seq<Byte>): nat
    requires |b| == 4
  {
    var b0: nat, b1: nat, b2: nat, b3: nat := b[0], b[1], b[2], b[3];
    b0 + 256 * b1 + 65536 * b2 + 16777216 * b3
  }

  /** In the image the byte of least weight comes first. */
  lemma WordMeans(x: nat)
    requires x < 0x1_0000_0000
    ensures var w := Word(x);
      var w0: nat, w1: nat, w2: nat, w3: nat := w[0], w[1], w[2], w[3];
      x == w0 + 0x100 * w1 + 0x1_0000 * w2 + 0x100_0000 * w3
  {
  }

  lemma WordRoundTrip(x: nat)
    requires x < 0x1_0000_0000
    ensures UnWord(Word(x)) == x
  {
    WordMeans(x);
    hide Word;
  }

  function Utf8(c: char): (r: seq<Byte>)
    ensures 1 <= |r| <= 4
    ensures c != '\0' ==> forall i :: 0 <= i < |r| ==> r[i] != 0
  {
    var x := c as int;
    if x < 0x80 then [x]
    else if x < 0x800 then [0xC0 + x / 64, 0x80 + x % 64]
    else if x < 0x10000 then [0xE0 + x / 4096, 0x80 + x / 64 % 64, 0x80 + x % 64]
    else [0xF0 + x / 262144, 0x80 + x / 4096 % 64, 0x80 + x / 64 % 64, 0x80 + x % 64]
  }

  /** UTF-8: the bits of a character, six in each byte but the first, in as few bytes as they need. */
  lemma Utf8Means(c: char)
    ensures var x, r := c as int, Utf8(c);
      && |r| == (if x < 0x80 then 1 else if x < 0x800 then 2 else if x < 0x1_0000 then 3 else 4)
      && (|r| == 1 ==> r[0] == x)
      && (|r| == 2 ==> var a: int, b: int := r[0], r[1]; 0xC0 <= a < 0xE0 && x == (a - 0xC0) * 0x40 + (b - 0x80))
      && (|r| == 3 ==> var a: int, b: int, d: int := r[0], r[1], r[2];
                       0xE0 <= a < 0xF0 && x == (a - 0xE0) * 0x1000 + (b - 0x80) * 0x40 + (d - 0x80))
      && (|r| == 4 ==> var a: int, b: int, d: int, e: int := r[0], r[1], r[2], r[3];
                       0xF0 <= a < 0xF8 && x == (a - 0xF0) * 0x4_0000 + (b - 0x80) * 0x1000 + (d - 0x80) * 0x40 + (e - 0x80))
      && forall i :: 0 < i < |r| ==> 0x80 <= r[i] < 0xC0
  {
    var x := c as int;
    assert x == x / 64 * 64 + x % 64 && x / 64 == x / 4096 * 64 + x / 64 % 64 && x / 4096 == x / 262144 * 64 + x / 4096 % 64;
  }

  function Utf8All(s: string): (r: seq<Byte>)
    ensures |r| >= |s|
  {
    if s == [] then [] else Utf8(s[0]) + Utf8All(s[1..])
  }

  function ToChar(x: int): Option<char> {
    if 0 <= x < 0xD800 || 0xE000 <= x < 0x11_0000 then Some(x as char) else None
  }

  function Low(b: Byte): int { b - 0x80 }

  /** The first character of a UTF-8 string and the number of bytes it takes. */
  function FirstChar(b: seq<Byte>): (r: Option<(char, nat)>)
    requires b != []
    ensures r.Some? ==> 1 <= r.value.1 <= |b|
  {
    var k := if b[0] < 0x80 then 1 else if b[0] < 0xE0 then 2 else if b[0] < 0xF0 then 3 else 4;
    if |b| < k then None
    else
      var b0: int := b[0];
      var x :=
        if k == 1 then b0
        else if k == 2 then (b0 - 0xC0) * 64 + Low(b[1])
        else if k == 3 then (b0 - 0xE0) * 4096 + Low(b[1]) * 64 + Low(b[2])
        else (b0 - 0xF0) * 262144 + Low(b[1]) * 4096 + Low(b[2]) * 64 + Low(b[3]);
      match ToChar(x)
      case None => None
      case Some(c) => Some((c, k))
  }

  function DecodeName(b: seq<Byte>): Option<string> {
    if b == [] then Some([])
    else
      match FirstChar(b)
      case None => None
      case Some((c, k)) =>
        match DecodeName(b[k..])
        case None => None
        case Some(s) => Some([c] + s)
  }

  lemma FirstCharOf(c: char, rest: seq<Byte>)
    ensures FirstChar(Utf8(c) + rest) == Some((c, |Utf8(c)|))
  {
    var x := c as int;
    assert x == x / 64 * 64 + x % 64 && x / 64 == x / 4096 * 64 + x / 64 % 64 && x / 4096 == x / 262144 * 64 + x / 4096 % 64;
  }

  lemma {:induction false} NameRoundTrip(s: string)
    ensures DecodeName(Utf8All(s)) == Some(s)
  {
    hide Utf8, FirstChar;
    if s != [] {
      FirstCharOf(s[0], Utf8All(s[1..]));
      NameRoundTrip(s[1..]);
      assert Utf8All(s)[|Utf8(s[0])|..] == Utf8All(s[1..]);
      assert s == [s[0]] + s[1..];
    }
  }

  function Zeros(n: nat): (r: seq<Byte>)
    ensures |r| == n && forall i :: 0 <= i < n ==> r[i] == 0
  {
    seq(n, _ => 0)
  }

  /** bin_name followed by its encoding.  The padding is worked out from the number of characters. */
  function BinName(name: string): (r: seq<Byte>) {
    Utf8All(name) + Zeros(4 - |name| % 4)
  }

  /** The encoding, and one to four zeros: as many as make the number of characters a multiple of four. */
  lemma BinNameMeans(name: string)
    ensures var b, n := BinName(name), |Utf8All(name)|;
      && n < |b| <= n + 4 && (|name| + (|b| - n)) % 4 == 0 && b[..n] == Utf8All(name) && forall i :: n <= i < |b| ==> b[i] == 0
  {
  }

  predicate NulFree(s: string) {
    forall i :: 0 <= i < |s| ==> s[i] != '\0'
  }

  // ---------------------------------------------------------------- the image

  function EntrySize(e: Entry): nat {
    match e
    case File(_, data) => |data|
    case Folder(_, children) => |children|
  }

  /** struct.pack of one directory entry; None stands for the struct error of a value over 32 bits. */
  function Pack(tp: nat, name: nat, data: nat, size: nat): (r: Option<seq<Byte>>)
    ensures r.Some? <==> tp < 0x1_0000_0000 && name < 0x1_0000_0000 && data < 0x1_0000_0000 && size < 0x1_0000_0000
    ensures r.Some? ==> |r.value| == DIRENT
  {
    if tp < 0x1_0000_0000 && name < 0x1_0000_0000 && data < 0x1_0000_0000 && size < 0x1_0000_0000
    then Some(Word(tp) + Word(name) + Word(data) + Word(size))
    else None
  }

  /** Type, name, data and size, in this order. */
  lemma PackMeans(tp: nat, name: nat, data: nat, size: nat)
    requires Pack(tp, name, data, size).Some?
    ensures var b := Pack(tp, name, data, size).value;
      b[0..4] == Word(tp) && b[4..8] == Word(name) && b[8..12] == Word(data) && b[12..16] == Word(size)
  {
  }

  function Type(e: Entry): nat { if e.File? then 0 else 1 }

  /** A child's data padded to a multiple of four bytes. */
  function Padded(d: seq<Byte>): seq<Byte> {
    if |d| % 4 == 0 then d else d + Zeros(4 - |d| % 4)
  }

  lemma PaddedMeans(d: seq<Byte>)
    ensures var r := Padded(d);
      |d| <= |r| < |d| + 4 && |r| % 4 == 0 && r[..|d|] == d && forall i :: |d| <= i < |r| ==> r[i] == 0
  {
  }

  /** The directory entries and the payload of a list of children whose payload starts at v. */
  datatype Laid = Laid(dirents: seq<Byte>, payload: seq<Byte>)

  function BinData(e: Entry, base: nat): Option<seq<Byte>>
    decreases e, 0
  {
    match e
    case File(_, data) => Some(data)
    case Folder(_, children) =>
      match LayOut(children, base + DIRENT * |children|)
      case None => None
      case Some(l) => Some(l.dirents + l.payload)
  }

  function LayOut(cs: seq<Entry>, v: nat): (r: Option<Laid>)
    ensures r.Some? ==> |r.value.dirents| == DIRENT * |cs|
    decreases cs, 1
  {
    if cs == [] then Some(Laid([], []))
    else
      var c := cs[0];
      var name := BinName(c.name);
      match BinData(c, v + |name|)
      case None => None
      case Some(d) =>
        var data := Padded(d);
        match Pack(Type(c), v, v + |name|, EntrySize(c))
        case None => None
        case Some(dirent) =>
          match LayOut(cs[1..], v + |name| + |data|)
          case None => None
          case Some(l) => Some(Laid(dirent + l.dirents, name + data + l.payload))
  }

  /** get_bin_data: the root entry, its name, and the image of the tree. */
  function GetBinData(tree: seq<Entry>, base: nat): Option<seq<Byte>> {
    var name: seq<Byte> := [47, 0, 0, 0];
    match Pack(1, base + DIRENT, base + DIRENT + 4, |tree|)
    case None => None
    case Some(root) =>
      match BinData(Folder("", tree), base + DIRENT + 4)
      case None => None
      case Some(d) => Some(root + name + d)
  }

  // ---------------------------------------------------------------- reading the image

  datatype Dirent = Dirent(tp: nat, name: nat, data: nat, size: nat)

  function Slice(img: seq<Byte>, base: nat, a: nat, n: nat): (r: Option<seq<Byte>>)
    ensures r.Some? ==> |r.value| == n
  {
    if base <= a && a - base + n <= |img| then Some(img[a - base..a - base + n]) else None
  }

  function ReadDirent(img: seq<Byte>, base: nat, a: nat): Option<Dirent> {
    match Slice(img, base, a, DIRENT)
    case None => None
    case Some(b) => Some(Dirent(UnWord(b[0..4]), UnWord(b[4..8]), UnWord(b[8..12]), UnWord(b[12..16])))
  }

  /** The bytes before the first NUL. */
  function CString(b: seq<Byte>): Option<seq<Byte>> {
    if b == [] then None
    else if b[0] == 0 then Some([])
    else
      match CString(b[1..])
      case None => None
      case Some(s) => Some([b[0]] + s)
  }

  function ReadName(img: seq<Byte>, base: nat, a: nat): Option<string> {
    if base <= a && a - base <= |img| then
      match CString(img[a - base..])
      case None => None
      case Some(b) => DecodeName(b)
    else None
  }

  /** Follow the addresses stored in the entry at a, down to the given depth. */
  function ReadEntry(img: seq<Byte>, base: nat, a: nat, depth: nat): Option<Entry>
    decreases depth, 0
  {
    if depth == 0 then None
    else
      match ReadDirent(img, base, a)
      case None => None
      case Some(d) =>
        match ReadName(img, base, d.name)
        case None => None
        case Some(name) =>
          if d.tp == 0 then
            match Slice(img, base, d.data, d.size)
            case None => None
            case Some(b) => Some(File(name, b))
          else if d.tp == 1 then
            match ReadEntries(img, base, d.data, d.size, depth - 1)
            case None => None
            case Some(cs) => Some(Folder(name, cs))
          else None
  }

  function ReadEntries(img: seq<Byte>, base: nat, a: nat, n: nat, depth: nat): (r: Option<seq<Entry>>)
    decreases depth, n + 1
  {
    if n == 0 then Some([])
    else
      match ReadEntry(img, base, a, depth)
      case None => None
      case Some(e) =>
        match ReadEntries(img, base, a + DIRENT, n - 1, depth)
        case None => None
        case Some(es) => Some([e] + es)
  }

  // ---------------------------------------------------------------- reading gives back the tree

  function Depth(e: Entry): nat
    decreases e, 0
  {
    if e.File? then 1 else 1 + DepthAll(e.children)
  }

  function DepthAll(cs: seq<Entry>): nat
    decreases cs, 1
  {
    if cs == [] then 0
    else
      var d, r := Depth(cs[0]), DepthAll(cs[1..]);
      if d < r then r else d
  }

  predicate CleanNames(cs: seq<Entry>)
    decreases cs, 1
  {
    cs == [] || (NulFree(cs[0].name) && (cs[0].Folder? ==> CleanNames(cs[0].children)) && CleanNames(cs[1..]))
  }

  ghost predicate Placed(img: seq<Byte>, base: nat, a: nat, b: seq<Byte>) {
    base <= a && a - base + |b| <= |img| && img[a - base..a - base + |b|] == b
  }

  lemma PlacedParts(img: seq<Byte>, base: nat, a: nat, b: seq<Byte>, c: seq<Byte>)
    requires Placed(img, base, a, b + c)
    ensures Placed(img, base, a, b) && Placed(img, base, a + |b|, c)
  {
    var o := a - base;
    var w := img[o..o + |b + c|];
    assert b == w[..|b|] == img[o..o + |b|];
    assert c == w[|b|..] == img[o + |b|..o + |b| + |c|];
  }

  lemma {:induction false} CStringOf(b: seq<Byte>, rest: seq<Byte>)
    requires (forall i :: 0 <= i < |b| ==> b[i] != 0) && rest != [] && rest[0] == 0
    ensures CString(b + rest) == Some(b)
  {
    if b == [] {
      assert b + rest == rest;
    } else {
      CStringOf(b[1..], rest);
      assert (b + rest)[1..] == b[1..] + rest && b == [b[0]] + b[1..];
    }
  }

  lemma {:induction false} NoNul(s: string)
    requires NulFree(s)
    ensures forall i :: 0 <= i < |Utf8All(s)| ==> Utf8All(s)[i] != 0
  {
    if s != [] {
      NoNul(s[1..]);
    }
  }

  lemma NamePlaced(img: seq<Byte>, base: nat, a: nat, name: string)
    requires NulFree(name) && Placed(img, base, a, BinName(name))
    ensures ReadName(img, base, a) == Some(name)
  {
    var b, z := Utf8All(name), Zeros(4 - |name| % 4);
    var o := a - base;
    NoNul(name);
    CStringOf(b, z + img[o + |b + z|..]);
    assert img[o..] == img[o..o + |b + z|] + img[o + |b + z|..];
    assert img[o..] == b + (z + img[o + |b + z|..]);
    NameRoundTrip(name);
  }

  lemma DirentPlaced(img: seq<Byte>, base: nat, a: nat, tp: nat, name: nat, data: nat, size: nat)
    requires Pack(tp, name, data, size).Some? && Placed(img, base, a, Pack(tp, name, data, size).value)
    ensures ReadDirent(img, base, a) == Some(Dirent(tp, name, data, size))
  {
    var b := Pack(tp, name, data, size).value;
    assert b[0..4] == Word(tp) && b[4..8] == Word(name) && b[8..12] == Word(data) && b[12..16] == Word(size);
    WordRoundTrip(tp);
    WordRoundTrip(name);
    WordRoundTrip(data);
    WordRoundTrip(size);
  }

  lemma SlicePlaced(img: seq<Byte>, base: nat, a: nat, b: seq<Byte>)
    requires Placed(img, base, a, b)
    ensures Slice(img, base, a, |b|) == Some(b)
  {
  }

  /** The parts of a layout, taken apart and found in the image. */
  lemma LayOutParts(img: seq<Byte>, base: nat, a: nat, v: nat, cs: seq<Entry>)
    returns (name: seq<Byte>, d: seq<Byte>, dirent: seq<Byte>, l: Laid, v': nat)
    requires cs != [] && LayOut(cs, v).Some?
    requires Placed(img, base, a, LayOut(cs, v).value.dirents) && Placed(img, base, v, LayOut(cs, v).value.payload)
    ensures name == BinName(cs[0].name) && BinData(cs[0], v + |name|) == Some(d)
    ensures Pack(Type(cs[0]), v, v + |name|, EntrySize(cs[0])) == Some(dirent) && LayOut(cs[1..], v') == Some(l)
    ensures Placed(img, base, v, name) && Placed(img, base, v + |name|, d) && Placed(img, base, a, dirent)
    ensures Placed(img, base, a + DIRENT, l.dirents) && Placed(img, base, v', l.payload) && v' == v + |name| + |Padded(d)|
  {
    hide Pack, BinName, Placed, BinData, Padded;
    name := BinName(cs[0].name);
    d := BinData(cs[0], v + |name|).value;
    var data := Padded(d);
    dirent := Pack(Type(cs[0]), v, v + |name|, EntrySize(cs[0])).value;
    v' := v + |name| + |data|;
    l := LayOut(cs[1..], v').value;
    PlacedParts(img, base, a, dirent, l.dirents);
    PlacedThree(img, base, v, name, data, l.payload);
    PaddedPlaced(img, base, v + |name|, d);
  }

  lemma PlacedThree(img: seq<Byte>, base: nat, a: nat, b: seq<Byte>, c: seq<Byte>, d: seq<Byte>)
    requires Placed(img, base, a, b + c + d)
    ensures Placed(img, base, a, b) && Placed(img, base, a + |b|, c) && Placed(img, base, a + |b| + |c|, d)
  {
    hide Placed;
    PlacedParts(img, base, a, b + c, d);
    PlacedParts(img, base, a, b, c);
  }

  lemma PaddedPlaced(img: seq<Byte>, base: nat, a: nat, d: seq<Byte>)
    requires Placed(img, base, a, Padded(d))
    ensures Placed(img, base, a, d)
  {
    hide Placed;
    if |d| % 4 != 0 {
      PlacedParts(img, base, a, d, Zeros(4 - |d| % 4));
    }
  }

  /** A laid-out list of children reads back as itself. */
  lemma {:induction false} ReadBack(img: seq<Byte>, base: nat, a: nat, v: nat, cs: seq<Entry>, depth: nat)
    requires CleanNames(cs) && DepthAll(cs) <= depth
    requires LayOut(cs, v).Some?
    requires Placed(img, base, a, LayOut(cs, v).value.dirents) && Placed(img, base, v, LayOut(cs, v).value.payload)
    ensures ReadEntries(img, base, a, |cs|, depth) == Some(cs)
    decreases cs, 1
  {
    hide Pack, BinName, Placed, BinData, ReadName, ReadDirent, ReadEntry;
    if cs != [] {
      var name, d, dirent, l, v' := LayOutParts(img, base, a, v, cs);
      var c, da := cs[0], v + |name|;
      DirentPlaced(img, base, a, Type(c), v, da, EntrySize(c));
      NamePlaced(img, base, v, c.name);
      EntryBack(img, base, a, v, da, c, depth);
      ReadBack(img, base, a + DIRENT, v', cs[1..], depth);
      assert cs == [c] + cs[1..];
    }
  }

  lemma EntryBack(img: seq<Byte>, base: nat, a: nat, na: nat, da: nat, c: Entry, depth: nat)
    requires (c.Folder? ==> CleanNames(c.children)) && Depth(c) <= depth
    requires BinData(c, da).Some? && Placed(img, base, da, BinData(c, da).value)
    requires ReadDirent(img, base, a) == Some(Dirent(Type(c), na, da, EntrySize(c))) && ReadName(img, base, na) == Some(c.name)
    ensures ReadEntry(img, base, a, depth) == Some(c)
    decreases c, 0
  {
    hide Pack, BinName, Placed, ReadName, ReadDirent, LayOut, Slice;
    match c
    case File(_, data) =>
      SlicePlaced(img, base, da, data);
    case Folder(_, children) =>
      var l := LayOut(children, da + DIRENT * |children|).value;
      PlacedParts(img, base, da, l.dirents, l.payload);
      LayOutLength(children, da + DIRENT * |children|);
      ReadBack(img, base, da, da + DIRENT * |children|, children, depth - 1);
  }

  lemma LayOutLength(cs: seq<Entry>, v: nat)
    ensures LayOut(cs, v).Some? ==> |LayOut(cs, v).value.dirents| == DIRENT * |cs|
  {
  }

  lemma RootName()
    ensures BinName("/") == [47, 0, 0, 0] && NulFree("/")
  {
    assert "/"[1..] == "" && Utf8All("") == [] && Utf8("/"[0]) == [47];
    assert Utf8All("/") == [47];
  }

  /** Where the parts of an image are. */
  lemma ImageParts(tree: seq<Entry>, base: nat)
    requires GetBinData(tree, base).Some?
    ensures var img, e, da := GetBinData(tree, base).value, Folder("/", tree), base + DIRENT + 4;
      && ReadDirent(img, base, base) == Some(Dirent(1, base + DIRENT, da, |tree|))
      && BinData(e, da).Some? && Placed(img, base, da, BinData(e, da).value)
      && Placed(img, base, base + DIRENT, [47, 0, 0, 0])
  {
    hide Pack, LayOut, ReadDirent;
    var img := GetBinData(tree, base).value;
    var name: seq<Byte> := [47, 0, 0, 0];
    var root := Pack(1, base + DIRENT, base + DIRENT + 4, |tree|).value;
    var d := BinData(Folder("", tree), base + DIRENT + 4).value;
    assert Placed(img, base, base, img) && img == root + (name + d) && |root| == DIRENT;
    hide Placed;
    PlacedParts(img, base, base, root, name + d);
    PlacedParts(img, base, base + DIRENT, name, d);
    DirentPlaced(img, base, base, 1, base + DIRENT, base + DIRENT + 4, |tree|);
  }

  /** For every tree with NUL-free names and every base address, following the addresses stored in the image
      gives the tree back. */
  lemma ImageRoundTrip(tree: seq<Entry>, base: nat)
    requires CleanNames(tree) && GetBinData(tree, base).Some?
    ensures var img := GetBinData(tree, base).value;
            ReadEntry(img, base, base, DepthAll(tree) + 1) == Some(Folder("/", tree))
  {
    hide LayOut, BinData, ReadName, ReadDirent, ReadEntry, Placed, GetBinData;
    ImageParts(tree, base);
    var img := GetBinData(tree, base).value;
    RootName();
    NamePlaced(img, base, base + DIRENT, "/");
    EntryBack(img, base, base, base + DIRENT, base + DIRENT + 4, Folder("/", tree), DepthAll(tree) + 1);
  }

  // ---------------------------------------------------------------- when the image can be built

  /** How many bytes a child list takes after its directory entries, wherever it is placed. */
  function Length(cs: seq<Entry>): nat
    decreases cs, 1
  {
    if cs == [] then 0 else |BinName(cs[0].name)| + Round4(DataLength(cs[0])) + Length(cs[1..])
  }

  function DataLength(e: Entry): nat
    decreases e, 0
  {
    if e.File? then |e.data| else DIRENT * |e.children| + Length(e.children)
  }

  function Round4(n: nat): (r: nat)
    ensures n <= r < n + 4 && r % 4 == 0
  {
    if n % 4 == 0 then n else n + 4 - n % 4
  }

  /** An image that ends below 4 GiB is always built, and has the length the layout promises. */
  lemma {:induction false} LayOutFits(cs: seq<Entry>, v: nat)
    requires v + Length(cs) < 0x1_0000_0000
    ensures LayOut(cs, v).Some? && |LayOut(cs, v).value.payload| == Length(cs)
    decreases cs, 1
  {
    hide BinName, Pack, BinData;
    if cs != [] {
      var c := cs[0];
      DataFits(c, v + |BinName(c.name)|);
      LayOutFits(cs[1..], v + |BinName(c.name)| + Round4(DataLength(c)));
    }
  }

  lemma DataFits(e: Entry, v: nat)
    requires v + DataLength(e) < 0x1_0000_0000
    ensures EntrySize(e) < 0x1_0000_0000 && BinData(e, v).Some? && |BinData(e, v).value| == DataLength(e)
    decreases e, 0
  {
    if e.Folder? {
      LayOutFits(e.children, v + DIRENT * |e.children|);
    }
  }

  lemma ImageFits(tree: seq<Entry>, base: nat)
    requires base + DIRENT + 4 + DIRENT * |tree| + Length(tree) < 0x1_0000_0000
    ensures GetBinData(tree, base).Some?
    ensures |GetBinData(tree, base).value| == DIRENT + 4 + DIRENT * |tree| + Length(tree)
  {
    hide LayOut;
    DataFits(Folder("", tree), base + DIRENT + 4);
  }

  /** Whatever is built has that length. */
  lemma {:induction false} LengthIs(cs: seq<Entry>, v: nat)
    ensures LayOut(cs, v).Some? ==> |LayOut(cs, v).value.payload| == Length(cs)
    decreases cs, 1
  {
    hide BinName, Pack, BinData;
    if cs != [] && LayOut(cs, v).Some? {
      var c := cs[0];
      DataLengthIs(c, v + |BinName(c.name)|);
      LengthIs(cs[1..], v + |BinName(c.name)| + Round4(DataLength(c)));
    }
  }

  lemma DataLengthIs(e: Entry, v: nat)
    ensures BinData(e, v).Some? ==> |BinData(e, v).value| == DataLength(e)
    decreases e, 0
  {
    if e.Folder? {
      LengthIs(e.children, v + DIRENT * |e.children|);
    }
  }

  // ---------------------------------------------------------------- alignment

  /** The padding counts characters, so it makes the name a whole number of words only when the encoding is
      longer than the name by a multiple of four. */
  predicate Regular(name: string) {
    (|Utf8All(name)| - |name|) % 4 == 0
  }

  lemma NamePadding(name: string)
    ensures |BinName(name)| % 4 == 0 <==> Regular(name)
  {
  }

  predicate AllRegular(cs: seq<Entry>)
    decreases cs, 1
  {
    cs == [] || (Regular(cs[0].name) && (cs[0].Folder? ==> AllRegular(cs[0].children)) && AllRegular(cs[1..]))
  }

  /** The name and data addresses stored in the entry at a of an image, and in all entries below it, down to the given
      depth, are multiples of four. */
  predicate AlignedEntry(img: seq<Byte>, base: nat, a: nat, depth: nat)
    decreases depth, 0
  {
    depth > 0
    && match ReadDirent(img, base, a)
       case None => false
       case Some(d) => d.name % 4 == 0 && d.data % 4 == 0 && (d.tp == 1 ==> AlignedEntries(img, base, d.data, d.size, depth - 1))
  }

  predicate AlignedEntries(img: seq<Byte>, base: nat, a: nat, n: nat, depth: nat)
    decreases depth, n + 1
  {
    n == 0 || (AlignedEntry(img, base, a, depth) && AlignedEntries(img, base, a + DIRENT, n - 1, depth))
  }

  /** The addresses of names and data that the layout works out for these children and their descendants are multiples of
      four. */
  ghost predicate AlignedAt(cs: seq<Entry>, v: nat)
    decreases cs, 1
  {
    cs == [] ||
    var c, da := cs[0], v + |BinName(cs[0].name)|;
    && v % 4 == 0 && da % 4 == 0
    && (c.Folder? ==> AlignedAt(c.children, da + DIRENT * |c.children|))
    && AlignedAt(cs[1..], da + Round4(DataLength(c)))
  }

  lemma WordsAdd(a: nat, b: nat)
    requires a % 4 == 0
    ensures (a + b) % 4 == 0 <==> b % 4 == 0
  {
  }

  /** From a word-aligned place on, the layout is aligned throughout exactly when every name is regular. */
  lemma {:induction false} LayOutAligned(cs: seq<Entry>, v: nat)
    requires v % 4 == 0
    ensures AlignedAt(cs, v) <==> AllRegular(cs)
    decreases cs, 1
  {
    hide BinName, Regular, Utf8All, Round4, DataLength;
    if cs != [] {
      var c, da := cs[0], v + |BinName(cs[0].name)|;
      NamePadding(c.name);
      WordsAdd(v, |BinName(c.name)|);
      if da % 4 == 0 {
        WholeWords(da, Round4(DataLength(c)));
        if c.Folder? {
          WholeDirents(da, |c.children|);
          LayOutAligned(c.children, da + DIRENT * |c.children|);
        }
        LayOutAligned(cs[1..], da + Round4(DataLength(c)));
      }
    }
  }

  lemma WholeWords(a: nat, b: nat)
    requires a % 4 == 0 && b % 4 == 0
    ensures (a + b) % 4 == 0
  {
  }

  lemma WholeDirents(a: nat, n: nat)
    requires a % 4 == 0
    ensures (a + DIRENT * n) % 4 == 0
  {
  }

  lemma {:induction false} AsciiRegular(name: string)
    requires forall i :: 0 <= i < |name| ==> name[i] < '\U{80}'
    ensures |Utf8All(name)| == |name| && Regular(name)
  {
    if name != [] {
      AsciiRegular(name[1..]);
    }
  }

  /** What an image stores is what the layout works out. */
  lemma {:induction false} StoredAligned(img: seq<Byte>, base: nat, a: nat, v: nat, cs: seq<Entry>, depth: nat)
    requires DepthAll(cs) <= depth && LayOut(cs, v).Some?
    requires Placed(img, base, a, LayOut(cs, v).value.dirents) && Placed(img, base, v, LayOut(cs, v).value.payload)
    ensures AlignedEntries(img, base, a, |cs|, depth) <==> AlignedAt(cs, v)
    decreases cs, 1
  {
    hide Pack, BinName, Placed, BinData, ReadDirent, AlignedEntry;
    if cs != [] {
      var name, d, dirent, l, v' := LayOutParts(img, base, a, v, cs);
      var c, da := cs[0], v + |name|;
      DataLengthIs(c, da);
      DirentPlaced(img, base, a, Type(c), v, da, EntrySize(c));
      EntryStored(img, base, a, v, da, c, depth);
      StoredAligned(img, base, a + DIRENT, v', cs[1..], depth);
    }
  }

  lemma EntryStored(img: seq<Byte>, base: nat, a: nat, na: nat, da: nat, c: Entry, depth: nat)
    requires Depth(c) <= depth && BinData(c, da).Some? && Placed(img, base, da, BinData(c, da).value)
    requires ReadDirent(img, base, a) == Some(Dirent(Type(c), na, da, EntrySize(c)))
    ensures AlignedEntry(img, base, a, depth)
        <==> na % 4 == 0 && da % 4 == 0 && (c.Folder? ==> AlignedAt(c.children, da + DIRENT * |c.children|))
    decreases c, 0
  {
    hide Pack, BinName, Placed, ReadDirent, LayOut, AlignedAt;
    if c.Folder? {
      var v := da + DIRENT * |c.children|;
      var l := LayOut(c.children, v).value;
      PlacedParts(img, base, da, l.dirents, l.payload);
      LayOutLength(c.children, v);
      StoredAligned(img, base, da, v, c.children, depth - 1);
    }
  }

  /** Every name and data address stored in the image of a tree is a multiple of four exactly when the base is and every
      name is regular. */
  lemma AlignedIff(tree: seq<Entry>, base: nat, depth: nat)
    requires GetBinData(tree, base).Some? && depth > DepthAll(tree)
    ensures AlignedEntry(GetBinData(tree, base).value, base, base, depth) <==> base % 4 == 0 && AllRegular(tree)
  {
    hide LayOut, BinData, ReadDirent, Placed, AlignedEntry, AlignedAt, AllRegular, GetBinData;
    ImageParts(tree, base);
    var img, da := GetBinData(tree, base).value, base + DIRENT + 4;
    EntryStored(img, base, base, base + DIRENT, da, Folder("/", tree), depth);
    if base % 4 == 0 {
      WholeDirents(da, |tree|);
      LayOutAligned(tree, da + DIRENT * |tree|);
    }
  }

  /** One accented letter is enough: the image of a single empty file of that name is built, and is not aligned. */
  lemma NotAlignedExample()
    ensures var tree := [File("\U{e9}", [])];
      CleanNames(tree) && GetBinData(tree, 0).Some? && !AlignedEntry(GetBinData(tree, 0).value, 0, 0, 2)
  {
    hide GetBinData, AlignedEntry, LayOut;
    var name := "\U{e9}";
    var tree := [File(name, [])];
    assert name[1..] == "" && Utf8All("") == [] && |Utf8(name[0])| == 2;
    assert Utf8All(name) == Utf8(name[0]) + Utf8All("");
    assert tree[1..] == [] && |BinName(name)| == 5;
    assert Length(tree) == 5 && DepthAll(tree) == 1 && !AllRegular(tree);
    ImageFits(tree, 0);
    AlignedIff(tree, 0, 2);
  }

  // ---------------------------------------------------------------- the builder

  /** A layout put in front of another. */
  function Before(l: Laid, r: Option<Laid>): Option<Laid> {
    match r
    case None => None
    case Some(m) => Some(Laid(l.dirents + m.dirents, l.payload + m.payload))
  }

  /** File.bin_data and Folder.bin_data. */
  method BuildBinData(e: Entry, base: nat) returns (r: Option<seq<Byte>>)
    ensures r == BinData(e, base)
    decreases e, 0
  {
    match e
    case File(_, data) =>
      r := Some(data);
    case Folder(_, children) =>
      var l := BuildFolder(children, base + DIRENT * |children|);
      match l {
        case None => r := None;
        case Some(l) => r := Some(l.dirents + l.payload);
      }
  }

  /** The loop of Folder.bin_data. */
  method BuildFolder(children: seq<Entry>, base: nat) returns (r: Option<Laid>)
    ensures r == LayOut(children, base)
    decreases children, 1
  {
    hide Pack, BinName, BinData, LayOut, Before, Padded;
    var dirents, payload := [], [];
    var v: nat := base;
    var i := 0;
    assert children[0..] == children;
    BeforeNothing(LayOut(children, base));
    while i < |children|
      invariant i <= |children|
      invariant LayOut(children, base) == Before(Laid(dirents, payload), LayOut(children[i..], v))
    {
      var c := children[i];
      assert children[i..] != [] && children[i..][0] == c;
      LayOutStep(children[i..], v);
      BeforeEnds(Laid(dirents, payload), children[i..], v);
      var name := BinName(c.name);
      var nameAddr := v;
      v := v + |name|;
      var b := BuildBinData(c, v);
      if b.None? {
        return None;
      }
      var dataAddr := v;
      var data := Padded(b.value);
      v := v + |data|;
      var dirent := Pack(Type(c), nameAddr, dataAddr, EntrySize(c));
      if dirent.None? {
        return None;
      }
      assert children[i..][1..] == children[i + 1..];
      BeforeTwice(Laid(dirents, payload), Laid(dirent.value, name + data), LayOut(children[i + 1..], v));
      dirents, payload := dirents + dirent.value, payload + (name + data);
      i := i + 1;
    }
    BeforeEnds(Laid(dirents, payload), children[i..], v);
    r := Some(Laid(dirents, payload));
  }

  /** One round of the loop, in terms of the layout. */
  lemma LayOutStep(cs: seq<Entry>, v: nat)
    requires cs != []
    ensures var name := BinName(cs[0].name);
      match BinData(cs[0], v + |name|)
      case None => LayOut(cs, v) == None
      case Some(d) =>
        match Pack(Type(cs[0]), v, v + |name|, EntrySize(cs[0]))
        case None => LayOut(cs, v) == None
        case Some(dirent) =>
          LayOut(cs, v) == Before(Laid(dirent, name + Padded(d)), LayOut(cs[1..], v + |name| + |Padded(d)|))
  {
    hide Pack, BinName, BinData, Padded;
  }

  lemma BeforeEnds(l: Laid, cs: seq<Entry>, v: nat)
    ensures LayOut(cs, v).None? ==> Before(l, LayOut(cs, v)).None?
    ensures cs == [] ==> Before(l, LayOut(cs, v)) == Some(l)
  {
    if cs == [] {
      assert l.dirents + [] == l.dirents && l.payload + [] == l.payload;
    }
  }

  lemma BeforeNothing(r: Option<Laid>)
    ensures Before(Laid([], []), r) == r
  {
    if r.Some? {
      assert [] + r.value.dirents == r.value.dirents && [] + r.value.payload == r.value.payload;
    }
  }

  lemma BeforeTwice(a: Laid, b: Laid, r: Option<Laid>)
    ensures Before(a, Before(b, r)) == Before(Laid(a.dirents + b.dirents, a.payload + b.payload), r)
  {
    if r.Some? {
      assert a.dirents + (b.dirents + r.value.dirents) == a.dirents + b.dirents + r.value.dirents;
      assert a.payload + (b.payload + r.value.payload) == a.payload + b.payload + r.value.payload;
    }
  }

  /** get_bin_data. */
  method BuildImage(tree: seq<Entry>, base: nat) returns (r: Option<seq<Byte>>)
    ensures r == GetBinData(tree, base)
    ensures r.Some? && CleanNames(tree) ==> ReadEntry(r.value, base, base, DepthAll(tree) + 1) == Some(Folder("/", tree))
  {
    var root := Pack(1, base + DIRENT, base + DIRENT + 4, |tree|);
    if root.None? {
      return None;
    }
    var d := BuildBinData(Folder("", tree), base + DIRENT + 4);
    if d.None? {
      return None;
    }
    var name: seq<Byte> := [47, 0, 0, 0];
    r := Some(root.value + name + d.value);
    if CleanNames(tree) {
      ImageRoundTrip(tree, base);
    }
  }
}
