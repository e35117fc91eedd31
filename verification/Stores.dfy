/** The bytes of a heap that keeps its own records among them, and the regions its operations have written. */
module Stores {
  import opened Basics
  import opened Tiling

  datatype Region = Region(lo: int, hi: int)

  /** Outside the regions nothing has changed. */
  ghost predicate Kept(touched: set<Region>, before: seq<Byte>, after: seq<Byte>) {
    var kept :=
      && |before| == |after|
      && forall k :: 0 <= k < |before| && (forall t :: t in touched ==> !(t.lo <= k < t.hi)) ==> after[k] == before[k];
    kept
  }

  /** None of the regions reaches into the n bytes from p on. */
  ghost predicate Clear(touched: set<Region>, p: int, n: nat) {
    forall t :: t in touched ==> t.hi <= p || p + n <= t.lo
  }

  lemma KeptMore(touched: set<Region>, base: seq<Byte>, before: seq<Byte>, after: seq<Byte>, t: Region)
    requires Kept(touched, base, before) && |before| == |after|
    requires forall k :: 0 <= k < |before| && !(t.lo <= k < t.hi) ==> after[k] == before[k]
    ensures Kept(touched + {t}, base, after)
  {
    forall k | 0 <= k < |base| && (forall x :: x in touched + {t} ==> !(x.lo <= k < x.hi))
      ensures after[k] == base[k]
    {
      assert t in touched + {t};
      assert forall x :: x in touched ==> x in touched + {t};
    }
  }

  lemma KeptNone(before: seq<Byte>, after: seq<Byte>)
    requires Kept({}, before, after)
    ensures after == before
  {
  }

  lemma KeptBytes(touched: set<Region>, before: seq<Byte>, after: seq<Byte>, p: int, n: nat)
    requires Kept(touched, before, after) && Clear(touched, p, n) && 0 <= p && p + n <= |before|
    ensures SameBytes(before, p, after, p, n)
  {
    forall k | p <= k < p + n
      ensures after[k] == before[k]
    {
    }
  }

  lemma SameTwice(a: seq<Byte>, p: int, b: seq<Byte>, q: int, c: seq<Byte>, r: int, n: nat)
    requires SameBytes(a, p, b, q, n) && SameBytes(b, q, c, r, n)
    ensures SameBytes(a, p, c, r, n)
  {
  }

  lemma SamePart(a: seq<Byte>, p: int, b: seq<Byte>, q: int, n: nat, m: nat)
    requires SameBytes(a, p, b, q, n) && m <= n
    ensures SameBytes(a, p, b, q, m)
  {
    var x, y := a[p..p + m], b[q..q + m];
    forall k | 0 <= k < m
      ensures y[k] == x[k]
    {
      assert b[q..q + n][k] == a[p..p + n][k];
    }
    assert y == x;
  }

  class Ram {
    const data: array<Byte>
    ghost var base: seq<Byte>           // the bytes before the operation under way
    ghost var touched: set<Region>      // what that operation has written

    ghost predicate Written()
      reads this, data
    {
      Kept(touched, base, data[..])
    }

    constructor (size: nat)
      ensures fresh(data) && data.Length == size && Written()
    {
      data := new Byte[size](_ => 0);
      touched := {};
      new;
      base := data[..];
    }

    ghost method Begin()
      modifies this
      ensures Written() && touched == {} && base == data[..]
    {
      base, touched := data[..], {};
    }

    /** A store to a record overwrites the n bytes the record occupies, in whatever layout the compiler chose. */
    method Touch(lo: int, n: nat)
      requires Written() && 0 <= lo && lo + n <= data.Length
      modifies this`touched, data
      ensures Written() && touched == old(touched) + {Region(lo, lo + n)}
    {
      ghost var before := data[..];
      for j := lo to lo + n
        invariant forall k :: 0 <= k < data.Length && !(lo <= k < lo + n) ==> data[k] == before[k]
        invariant touched == old(touched)
      {
        data[j] := *;
      }
      KeptMore(touched, base, before, data[..], Region(lo, lo + n));
      touched := touched + {Region(lo, lo + n)};
    }
  }
}
