/** Unsigned words as numbers and their bits, and the two versions of __rt_ffs (src/kservice.c:1688-1770). */
module Bits {

  function Bit(x: nat, k: nat): bool {
    if k == 0 then x % 2 == 1 else Bit(x / 2, k - 1)
  }

  /** 1 << k */
  function Pow2(k: nat): (r: nat)
    ensures r > 0
  {
    if k == 0 then 1 else 2 * Pow2(k - 1)
  }

  function And(x: nat, y: nat): nat {
    if x == 0 then 0 else 2 * And(x / 2, y / 2) + (if x % 2 == 1 && y % 2 == 1 then 1 else 0)
  }

  function Or(x: nat, y: nat): nat {
    if x == 0 then y else 2 * Or(x / 2, y / 2) + (if x % 2 == 1 || y % 2 == 1 then 1 else 0)
  }

  function Xor(x: nat, y: nat): nat {
    if x == 0 then y else 2 * Xor(x / 2, y / 2) + (if x % 2 != y % 2 then 1 else 0)
  }

  /** x & ~y */
  function Clear(x: nat, y: nat): nat {
    if x == 0 then 0 else 2 * Clear(x / 2, y / 2) + (if x % 2 == 1 && y % 2 == 0 then 1 else 0)
  }

  lemma {:induction false} BitZero(k: nat)
    ensures !Bit(0, k)
  {
    if k > 0 {
      BitZero(k - 1);
    }
  }

  lemma {:induction false} BitOr(x: nat, y: nat, k: nat)
    ensures Bit(Or(x, y), k) <==> Bit(x, k) || Bit(y, k)
  {
    BitZero(k);
    if x != 0 && k > 0 {
      BitOr(x / 2, y / 2, k - 1);
      assert Or(x, y) / 2 == Or(x / 2, y / 2);
    }
  }

  lemma {:induction false} BitClear(x: nat, y: nat, k: nat)
    ensures Bit(Clear(x, y), k) <==> Bit(x, k) && !Bit(y, k)
  {
    BitZero(k);
    if x != 0 && k > 0 {
      BitClear(x / 2, y / 2, k - 1);
      assert Clear(x, y) / 2 == Clear(x / 2, y / 2);
    }
  }

  lemma {:induction false} BitPow2(p: nat, k: nat)
    ensures Bit(Pow2(p), k) <==> k == p
  {
    if k == 0 {
      assert p > 0 ==> Pow2(p) == 2 * Pow2(p - 1);
    } else if p == 0 {
      BitZero(k - 1);
    } else {
      BitPow2(p - 1, k - 1);
    }
  }

  /** The number of zeros below the lowest bit. */
  function Ctz(x: nat): nat
    requires x > 0
  {
    if x % 2 == 1 then 0 else 1 + Ctz(x / 2)
  }

  lemma {:induction false} CtzLowest(x: nat)
    requires x > 0
    ensures Bit(x, Ctz(x)) && forall k: nat :: k < Ctz(x) ==> !Bit(x, k)
  {
    if x % 2 == 0 {
      CtzLowest(x / 2);
    }
  }

  lemma {:induction false} CtzBound(x: nat, n: nat)
    requires 0 < x < Pow2(n)
    ensures Ctz(x) < n
  {
    if n > 0 && x % 2 == 0 {
      CtzBound(x / 2, n - 1);
    }
  }

  /** A word with no bit from n on is less than 1 << n. */
  lemma {:induction false} Below(x: nat, n: nat)
    requires forall k: nat :: k >= n ==> !Bit(x, k)
    ensures x < Pow2(n)
  {
    if x > 0 {
      CtzLowest(x);
      assert Bit(x, Ctz(x));
    }
    if n > 0 {
      forall k: nat | k >= n - 1
        ensures !Bit(x / 2, k)
      {
        assert !Bit(x, k + 1);
      }
      Below(x / 2, n - 1);
    }
  }

  // ---------------------------------------------------------------- the lowest bit

  /** value & (value - 1) ^ value leaves the lowest bit alone. */
  lemma {:induction false} LowestAlone(x: nat)
    requires x > 0
    ensures Xor(And(x, x - 1), x) == Pow2(Ctz(x))
  {
    if x % 2 == 1 {
      AndEven(x);
      XorOne(x);
    } else {
      LowestAlone(x / 2);
      var y := x / 2;
      assert (x - 1) / 2 == y - 1 && (x - 1) % 2 == 1;
      assert And(x, x - 1) == 2 * And(y, y - 1);
      XorDouble(And(y, y - 1), y);
    }
  }

  lemma AndEven(x: nat)
    requires x % 2 == 1
    ensures And(x, x - 1) == x - 1
  {
    assert (x - 1) / 2 == x / 2;
    AndSelf(x / 2);
  }

  lemma {:induction false} AndSelf(x: nat)
    ensures And(x, x) == x
  {
    if x > 0 {
      AndSelf(x / 2);
    }
  }

  lemma {:induction false} XorSelf(x: nat)
    ensures Xor(x, x) == 0
  {
    if x > 0 {
      XorSelf(x / 2);
    }
  }

  lemma XorOne(x: nat)
    requires x % 2 == 1
    ensures Xor(x - 1, x) == 1
  {
    assert (x - 1) / 2 == x / 2;
    XorSelf(x / 2);
  }

  lemma XorDouble(a: nat, b: nat)
    ensures Xor(2 * a, 2 * b) == 2 * Xor(a, b)
  {
  }

  /** __lowest_bit_bitmap of the small version: the index is a power of two modulo 37. */
  function Tiny(i: nat): nat
    requires i < 37
  {
    match i
    case 0 => 0 case 1 => 1 case 2 => 2 case 3 => 27 case 4 => 3 case 5 => 24 case 6 => 28 case 7 => 32
    case 8 => 4 case 9 => 17 case 10 => 25 case 11 => 31 case 12 => 29 case 13 => 12 case 14 => 32
    case 15 => 14 case 16 => 5 case 17 => 8 case 18 => 18 case 19 => 32 case 20 => 26 case 21 => 23
    case 22 => 32 case 23 => 16 case 24 => 30 case 25 => 11 case 26 => 13 case 27 => 7 case 28 => 32
    case 29 => 22 case 30 => 15 case 31 => 10 case 32 => 6 case 33 => 21 case 34 => 9 case 35 => 20
    case _ => 19
  }

  function TinyFfs(value: nat): nat {
    var less := if value == 0 then 0xFFFF_FFFF else value - 1;
    Tiny(Xor(And(value, less), value) % 37)
  }

  /** 1 << k modulo 37, by doubling. */
  function Residue(k: nat): (r: nat)
    ensures r < 37
  {
    if k == 0 then 1 else
      var d := 2 * Residue(k - 1);
      if d >= 37 then d - 37 else d
  }

  lemma {:induction false} ResidueRight(k: nat)
    ensures Pow2(k) % 37 == Residue(k)
  {
    if k > 0 {
      ResidueRight(k - 1);
      DoubleModulo(Pow2(k - 1));
    }
  }

  lemma DoubleModulo(p: nat)
    ensures 2 * p % 37 == var d := 2 * (p % 37); if d >= 37 then d - 37 else d
  {
  }

  function ResidueListed(k: nat): nat
    requires k < 32
  {
    match k
    case 0 => 1 case 1 => 2 case 2 => 4 case 3 => 8 case 4 => 16 case 5 => 32 case 6 => 27 case 7 => 17
    case 8 => 34 case 9 => 31 case 10 => 25 case 11 => 13 case 12 => 26 case 13 => 15 case 14 => 30
    case 15 => 23 case 16 => 9 case 17 => 18 case 18 => 36 case 19 => 35 case 20 => 33 case 21 => 29
    case 22 => 21 case 23 => 5 case 24 => 10 case 25 => 20 case 26 => 3 case 27 => 6 case 28 => 12
    case 29 => 24 case 30 => 11 case _ => 22
  }

  lemma {:induction false} ResidueIs(k: nat)
    requires k < 32
    ensures Residue(k) == ResidueListed(k)
  {
    if k > 0 {
      ResidueIs(k - 1);
      if k < 16 {
        ListedStepLow(k);
      } else {
        ListedStepHigh(k);
      }
      hide ResidueListed;
    }
  }

  lemma ListedStepLow(k: nat)
    requires 0 < k < 16
    ensures var d := 2 * ResidueListed(k - 1); ResidueListed(k) == if d >= 37 then d - 37 else d
  {
  }

  lemma ListedStepHigh(k: nat)
    requires 16 <= k < 32
    ensures var d := 2 * ResidueListed(k - 1); ResidueListed(k) == if d >= 37 then d - 37 else d
  {
  }

  /** The first 32 powers of two are all different modulo 37, and the table turns them back. */
  lemma TinyEntry(k: nat)
    requires k < 32
    ensures Tiny(Pow2(k) % 37) == k + 1
  {
    ResidueRight(k);
    ResidueIs(k);
    hide Pow2, Residue;
    ListedBack(k);
  }

  lemma ListedBack(k: nat)
    requires k < 32
    ensures ResidueListed(k) < 37 && Tiny(ResidueListed(k)) == k + 1
  {
  }

  /** The index of the lowest bit, counted from one; zero for a word without bits. */
  function Ffs(value: nat): nat {
    if value == 0 then 0 else Ctz(value) + 1
  }

  lemma {:induction false} PowAdd(a: nat, b: nat)
    ensures Pow2(a + b) == Pow2(a) * Pow2(b)
  {
    if a > 0 {
      PowAdd(a - 1, b);
      assert Pow2(a + b) == 2 * Pow2(a - 1 + b);
    }
  }

  lemma Word()
    ensures Pow2(8) == 0x100 && Pow2(32) == 0x1_0000_0000
  {
    assert Pow2(4) == 16;
    PowAdd(4, 4);
    PowAdd(8, 8);
    PowAdd(16, 16);
  }

  lemma TinyFfsRight(value: nat)
    requires value <= 0xFFFF_FFFF
    ensures TinyFfs(value) == Ffs(value)
  {
    if value > 0 {
      LowestAlone(value);
      Word();
      CtzBound(value, 32);
      TinyEntry(Ctz(value));
    }
  }

  /** __lowest_bit_bitmap of the large version, in rows of 16: the rows differ in their first column only. */
  const FIRST: seq<nat> := [0, 4, 5, 4, 6, 4, 5, 4, 7, 4, 5, 4, 6, 4, 5, 4]
  const OTHERS: seq<nat> := [0, 0, 1, 0, 2, 0, 1, 0, 3, 0, 1, 0, 2, 0, 1, 0]

  function Entry(i: nat): nat
    requires i < 256
  {
    if i % 16 == 0 then FIRST[i / 16] else OTHERS[i % 16]
  }

  function TableFfs(value: nat): nat
    requires value <= 0xFFFF_FFFF
  {
    if value == 0 then 0
    else if value % 0x100 != 0 then Entry(value % 0x100) + 1
    else if value / 0x100 % 0x100 != 0 then Entry(value / 0x100 % 0x100) + 9
    else if value / 0x1_0000 % 0x100 != 0 then Entry(value / 0x1_0000 % 0x100) + 17
    else Entry(value / 0x100_0000) + 25
  }

  /** The lowest n bits of a word, and the rest of it. */
  function Low(x: nat, n: nat): nat {
    if n == 0 then 0 else x % 2 + 2 * Low(x / 2, n - 1)
  }

  function High(x: nat, n: nat): nat {
    if n == 0 then x else High(x / 2, n - 1)
  }

  lemma {:induction false} CtzSplit(x: nat, n: nat)
    requires x > 0
    ensures Low(x, n) != 0 ==> Ctz(x) == Ctz(Low(x, n))
    ensures Low(x, n) == 0 ==> High(x, n) > 0 && Ctz(x) == n + Ctz(High(x, n))
  {
    if n > 0 && x % 2 == 0 {
      CtzSplit(x / 2, n - 1);
      assert Low(x, n) / 2 == Low(x / 2, n - 1);
    }
  }

  lemma SplitFour(x: nat, n: nat)
    ensures High(x, n + 4) == High(x / 16, n) && Low(x, n + 4) == x % 16 + 16 * Low(x / 16, n)
  {
    var x1 := x / 2;
    var x2 := x1 / 2;
    var x3 := x2 / 2;
    assert x3 / 2 == x / 16;
    assert High(x, n + 4) == High(x1, n + 3) == High(x2, n + 2) == High(x3, n + 1);
    assert Low(x, n + 4) == x % 2 + 2 * Low(x1, n + 3);
    assert Low(x1, n + 3) == x1 % 2 + 2 * Low(x2, n + 2);
    assert Low(x2, n + 2) == x2 % 2 + 2 * Low(x3, n + 1);
    assert Low(x3, n + 1) == x3 % 2 + 2 * Low(x / 16, n);
  }

  lemma Nibble(x: nat)
    ensures Low(x, 4) == x % 16 && High(x, 4) == x / 16
  {
    SplitFour(x, 0);
  }

  lemma Byte(x: nat)
    ensures Low(x, 8) == x % 256 && High(x, 8) == x / 256
  {
    SplitFour(x, 4);
    Nibble(x / 16);
    hide Low, High;
    assert x % 256 == x % 16 + 16 * (x / 16 % 16);
    assert x / 16 / 16 == x / 256;
  }

  lemma EntryRight(i: nat)
    requires 0 < i < 256
    ensures Entry(i) == Ctz(i)
  {
    CtzSplit(i, 4);
    Nibble(i);
    if i % 16 == 0 {
      FirstRight(i / 16);
    } else {
      OthersRight(i % 16);
    }
  }

  lemma FirstRight(h: nat)
    requires 0 < h < 16
    ensures FIRST[h] == 4 + Ctz(h)
  {
    if h == 1 {} else if h == 2 {} else if h == 3 {} else if h == 4 {} else if h == 5 {} else if h == 6 {}
    else if h == 7 {} else if h == 8 {} else if h == 9 {} else if h == 10 {} else if h == 11 {} else if h == 12 {}
    else if h == 13 {} else if h == 14 {} else {}
  }

  lemma OthersRight(l: nat)
    requires 0 < l < 16
    ensures OTHERS[l] == Ctz(l)
  {
    if l == 1 {} else if l == 2 {} else if l == 3 {} else if l == 4 {} else if l == 5 {} else if l == 6 {}
    else if l == 7 {} else if l == 8 {} else if l == 9 {} else if l == 10 {} else if l == 11 {} else if l == 12 {}
    else if l == 13 {} else if l == 14 {} else {}
  }

  /** Both versions of the function find the lowest bit of every 32-bit word. */
  lemma TableFfsRight(value: nat)
    requires value <= 0xFFFF_FFFF
    ensures TableFfs(value) == Ffs(value)
  {
    hide Entry, Ctz, Low, High;
    if value > 0 {
      CtzSplit(value, 8);
      Byte(value);
      if value % 0x100 != 0 {
        EntryRight(value % 0x100);
      } else {
        UpperBytes(value / 0x100);
        assert value / 0x100 / 0x100 == value / 0x1_0000 && value / 0x100 / 0x1_0000 == value / 0x100_0000;
      }
    }
  }

  lemma UpperBytes(v: nat)
    requires 0 < v <= 0xFF_FFFF
    ensures Ctz(v) == if v % 0x100 != 0 then Entry(v % 0x100)
                      else if v / 0x100 % 0x100 != 0 then Entry(v / 0x100 % 0x100) + 8
                      else Entry(v / 0x1_0000) + 16
  {
    hide Entry, Ctz, Low, High;
    CtzSplit(v, 8);
    Byte(v);
    if v % 0x100 != 0 {
      EntryRight(v % 0x100);
    } else {
      var u := v / 0x100;
      CtzSplit(u, 8);
      Byte(u);
      if u % 0x100 != 0 {
        EntryRight(u % 0x100);
      } else {
        EntryRight(u / 0x100);
        assert u / 0x100 == v / 0x1_0000;
      }
    }
  }
}
