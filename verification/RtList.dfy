/** The doubly linked circular lists (include/rtservice.h:47-119): nodes at addresses, each with a next and a prev. */
module RtList {
  import opened Lists

  datatype Nodes = Nodes(next: map<int, int>, prev: map<int, int>)

  function Onward(n: nat, i: nat): nat {
    if i + 1 >= n then 0 else i + 1
  }

  /** Going along next visits the nodes of the ring in order and comes back to the first; prev is the way back. */
  ghost predicate Ring(m: Nodes, ring: seq<int>) {
    var ok :=
      && |ring| > 0 && NoRepeats(ring) && (forall x :: x in ring ==> x in m.next && x in m.prev)
      && forall i: nat :: i < |ring| ==>
           m.next[ring[i]] == ring[Onward(|ring|, i)] && m.prev[ring[Onward(|ring|, i)]] == ring[i];
    ok
  }

  lemma RingAt(m: Nodes, ring: seq<int>, i: nat)
    requires Ring(m, ring) && i < |ring|
    ensures ring[i] in m.next && ring[i] in m.prev
    ensures m.next[ring[i]] == ring[Onward(|ring|, i)] && m.next[ring[i]] in m.prev
    ensures m.prev[ring[i]] == ring[if i == 0 then |ring| - 1 else i - 1] && m.prev[ring[i]] in m.next
  {
    assert ring[i] in ring && ring[Onward(|ring|, i)] in ring;
    var j := if i == 0 then |ring| - 1 else i - 1;
    assert Onward(|ring|, j) == i;
    assert ring[j] in ring;
  }

  /** rt_list_insert_after, store by store. */
  function Spliced(m: Nodes, l: int, n: int): Nodes
    requires l in m.next
  {
    var x := m.next[l];
    Nodes(m.next[n := x][l := n], m.prev[x := n][n := l])
  }

  /** The two stores that take n out of its ring. */
  function Unlinked(m: Nodes, n: int): Nodes
    requires n in m.next && n in m.prev
  {
    Nodes(m.next[m.prev[n] := m.next[n]], m.prev[m.next[n] := m.prev[n]])
  }

  function Inserted(ring: seq<int>, i: nat, n: int): seq<int>
    requires i < |ring|
  {
    ring[..i + 1] + [n] + ring[i + 1..]
  }

  lemma InsertRing(m: Nodes, ring: seq<int>, i: nat, n: int)
    requires Ring(m, ring) && i < |ring| && n !in ring
    ensures ring[i] in m.next && Ring(Spliced(m, ring[i], n), Inserted(ring, i, n))
  {
    RingAt(m, ring, i);
    RingMembers(m, ring);
    InsertedHas(ring, i, n);
    hide NoRepeats, Inserted;
    var r, m' := Inserted(ring, i, n), Spliced(m, ring[i], n);
    forall k: nat | k < |r|
      ensures m'.next[r[k]] == r[Onward(|r|, k)] && m'.prev[r[Onward(|r|, k)]] == r[k]
    {
      InsertPoint(m, ring, i, n, k);
    }
  }

  lemma InsertPoint(m: Nodes, ring: seq<int>, i: nat, n: int, k: nat)
    requires Ring(m, ring) && i < |ring| && n !in ring && k <= |ring| && ring[i] in m.next
    ensures var r, m' := Inserted(ring, i, n), Spliced(m, ring[i], n);
      && |r| == |ring| + 1 && r[k] in m'.next && r[Onward(|r|, k)] in m'.prev
      && m'.next[r[k]] == r[Onward(|r|, k)] && m'.prev[r[Onward(|r|, k)]] == r[k]
  {
    hide NoRepeats, Inserted, Ring;
    InsertedAt(ring, i, n, k);
    InsertedAt(ring, i, n, Onward(|ring| + 1, k));
    RingParts(m, ring);
    RingAt(m, ring, i);
    Distinct(ring, Onward(|ring|, i), i);
    Distinct(ring, i, i);
    if k < i {
      RingAt(m, ring, k);
      RingAt(m, ring, k + 1);
      Distinct(ring, k, i);
      Distinct(ring, k + 1, Onward(|ring|, i));
    } else if k > i + 1 {
      RingAt(m, ring, k - 1);
      RingAt(m, ring, Onward(|ring|, k - 1));
      Distinct(ring, k - 1, i);
      Distinct(ring, Onward(|ring|, k - 1), Onward(|ring|, i));
    }
  }

  lemma InsertedAt(ring: seq<int>, i: nat, n: int, k: nat)
    requires i < |ring| && k <= |ring|
    ensures |Inserted(ring, i, n)| == |ring| + 1
    ensures Inserted(ring, i, n)[k] == if k <= i then ring[k] else if k == i + 1 then n else ring[k - 1]
    ensures n !in ring && k != i + 1 ==> Inserted(ring, i, n)[k] != n
  {
    var r := Inserted(ring, i, n);
    assert k <= i ==> r[k] == ring[k] && ring[k] in ring;
    assert k > i + 1 ==> r[k] == ring[k - 1] && ring[k - 1] in ring;
  }

  lemma RingParts(m: Nodes, ring: seq<int>)
    requires Ring(m, ring)
    ensures |ring| > 0 && NoRepeats(ring)
  {
  }

  lemma Distinct(ring: seq<int>, i: nat, j: nat)
    requires NoRepeats(ring) && i < |ring| && j < |ring|
    ensures ring[i] == ring[j] <==> i == j
    ensures ring[i] in ring
  {
  }

  lemma InsertedHas(ring: seq<int>, i: nat, n: int)
    requires NoRepeats(ring) && i < |ring| && n !in ring
    ensures var r := Inserted(ring, i, n);
      && |r| == |ring| + 1 && r[i + 1] == n && NoRepeats(r)
      && (forall k :: 0 <= k <= i ==> r[k] == ring[k]) && (forall k :: i + 1 < k < |r| ==> r[k] == ring[k - 1])
      && forall x :: x in r <==> x in ring || x == n
  {
    var r := Inserted(ring, i, n);
    assert ring == ring[..i + 1] + ring[i + 1..];
    assert forall k :: 0 <= k < |ring| ==> ring[k] in ring;
  }

  lemma RemoveRing(m: Nodes, ring: seq<int>, i: nat)
    requires Ring(m, ring) && 0 < i < |ring|
    ensures ring[i] in m.next && ring[i] in m.prev && Ring(Unlinked(m, ring[i]), ring[..i] + ring[i + 1..])
  {
    RingAt(m, ring, i);
    var r, m' := ring[..i] + ring[i + 1..], Unlinked(m, ring[i]);
    RemovedHas(ring, i);
    hide NoRepeats;
    forall k: nat | k < |r|
      ensures m'.next[r[k]] == r[Onward(|r|, k)] && m'.prev[r[Onward(|r|, k)]] == r[k]
    {
      var k' := if k < i then k else k + 1;
      RingAt(m, ring, k');
      Distinct(ring, k', i - 1);
      Distinct(ring, Onward(|ring|, k'), Onward(|ring|, i));
      Distinct(ring, k', i);
    }
  }

  lemma RemovedHas(ring: seq<int>, i: nat)
    requires NoRepeats(ring) && i < |ring|
    ensures var r := ring[..i] + ring[i + 1..];
      && |r| == |ring| - 1 && NoRepeats(r)
      && (forall k :: 0 <= k < i ==> r[k] == ring[k]) && (forall k :: i <= k < |r| ==> r[k] == ring[k + 1])
      && forall x :: x in r ==> x in ring && x != ring[i]
  {
  }

  /** Stores to nodes outside a ring leave it alone. */
  lemma RingFrame(m: Nodes, m': Nodes, ring: seq<int>)
    requires Ring(m, ring)
    requires forall x :: x in ring ==> x in m'.next && x in m'.prev && m'.next[x] == m.next[x] && m'.prev[x] == m.prev[x]
    ensures Ring(m', ring)
  {
    hide NoRepeats;
    forall i: nat | i < |ring|
      ensures m'.next[ring[i]] == ring[Onward(|ring|, i)] && m'.prev[ring[Onward(|ring|, i)]] == ring[i]
    {
      assert ring[i] in ring && ring[Onward(|ring|, i)] in ring;
    }
  }

  /** Nodes in memory. */
  class Memory {
    var next: map<int, int>
    var prev: map<int, int>

    ghost function Now(): Nodes
      reads this
    {
      Nodes(next, prev)
    }

    constructor ()
      ensures next == map[] && prev == map[]
    {
      next, prev := map[], map[];
    }

    method Init(l: int)
      modifies this
      ensures Ring(Now(), [l])
      ensures forall r :: Ring(old(Now()), r) && l !in r ==> Ring(Now(), r)
    {
      next, prev := next[l := l], prev[l := l];
      forall r | Ring(old(Now()), r) && l !in r
        ensures Ring(Now(), r)
      {
        RingFrame(old(Now()), Now(), r);
      }
    }

    /** rt_list_insert_after; rings without l and n stay as they are. */
    method InsertAfter(l: int, n: int, ghost ring: seq<int>, ghost i: nat)
      requires Ring(Now(), ring) && i < |ring| && ring[i] == l && n !in ring
      modifies this
      ensures Ring(Now(), Inserted(ring, i, n))
      ensures forall r :: Ring(old(Now()), r) && n !in r && (forall x :: x in r ==> x !in ring) ==> Ring(Now(), r)
    {
      hide Ring;
      InsertRing(Now(), ring, i, n);
      RingAt(Now(), ring, i);
      RingMembers(Now(), ring);
      RingNeighbours(Now(), ring, i);
      var x := next[l];
      prev := prev[x := n];
      next := next[n := next[l]];
      next := next[l := n];
      prev := prev[n := l];
      assert Now() == Spliced(old(Now()), l, n);
      forall r | Ring(old(Now()), r) && n !in r && (forall x :: x in r ==> x !in ring)
        ensures Ring(Now(), r)
      {
        RingMembers(old(Now()), r);
        RingFrame(old(Now()), Now(), r);
      }
    }

    /** rt_list_insert_before: at the end of the ring if l is its first node, which is how a queue grows. */
    method InsertBefore(l: int, n: int, ghost ring: seq<int>, ghost i: nat)
      requires Ring(Now(), ring) && i < |ring| && ring[i] == l && n !in ring
      modifies this
      ensures Ring(Now(), if i == 0 then ring + [n] else Inserted(ring, i - 1, n))
    {
      hide Ring;
      var at := if i == 0 then |ring| - 1 else i - 1;
      InsertRing(Now(), ring, at, n);
      RingAt(Now(), ring, i);
      RingAt(Now(), ring, at);
      var x := prev[l];
      next := next[x := n];
      prev := prev[n := prev[l]];
      prev := prev[l := n];
      next := next[n := l];
      assert Now() == Spliced(old(Now()), ring[at], n);
      assert i == 0 ==> Inserted(ring, at, n) == ring + [n];
    }

    /** rt_list_remove of a node that is not the head of its ring: the ring closes, and the node is a ring by itself.
        On such a node the same call changes nothing. */
    method Remove(n: int, ghost ring: seq<int>, ghost i: nat)
      requires Ring(Now(), ring) && i < |ring| && ring[i] == n
      modifies this
      ensures Ring(Now(), [n]) && (0 < i ==> Ring(Now(), ring[..i] + ring[i + 1..]))
      ensures |ring| == 1 ==> Now() == old(Now())
    {
      hide Ring;
      RingAt(Now(), ring, i);
      RingMembers(Now(), ring);
      if |ring| > 1 && i > 0 {
        RemoveRing(Now(), ring, i);
      }
      ghost var x, p := next[n], prev[n];
      prev := prev[next[n] := prev[n]];
      next := next[prev[n] := next[n]];
      if |ring| > 1 {
        NotItself(ring, i);
      }
      ghost var mid := Now();
      next, prev := next[n := n], prev[n := n];
      RingOne(Now(), n);
      if 0 < i {
        assert mid == Unlinked(old(Now()), n);
        RemovedMembers(old(Now()), ring, i);
        RingMembers(mid, ring[..i] + ring[i + 1..]);
        RingFrame(mid, Now(), ring[..i] + ring[i + 1..]);
      }
    }

    method IsEmpty(l: int, ghost ring: seq<int>) returns (b: bool)
      requires Ring(Now(), ring) && ring[0] == l
      ensures b <==> |ring| == 1
    {
      RingAt(Now(), ring, 0);
      Distinct(ring, 0, Onward(|ring|, 0));
      b := next[l] == l;
    }

    /** rt_list_len: the head does not count. */
    method Len(l: int, ghost ring: seq<int>) returns (len: nat)
      requires Ring(Now(), ring) && ring[0] == l
      ensures len == |ring| - 1
    {
      hide Ring, NoRepeats;
      RingMembers(Now(), ring);
      len := 0;
      var p := l;
      RingAt(Now(), ring, 0);
      while next[p] != l
        invariant len < |ring| && p == ring[len] && p in next
        decreases |ring| - len
      {
        RingAt(Now(), ring, len);
        Distinct(ring, 0, Onward(|ring|, len));
        p := next[p];
        len := len + 1;
        RingAt(Now(), ring, len);
      }
      RingAt(Now(), ring, len);
      Distinct(ring, 0, Onward(|ring|, len));
    }
  }

  lemma RingMembers(m: Nodes, ring: seq<int>)
    requires Ring(m, ring)
    ensures |ring| > 0 && NoRepeats(ring) && forall x :: x in ring ==> x in m.next && x in m.prev
  {
  }

  lemma RingNeighbours(m: Nodes, ring: seq<int>, i: nat)
    requires Ring(m, ring) && i < |ring|
    ensures ring[i] in m.next && ring[i] in m.prev && m.next[ring[i]] in ring && m.prev[ring[i]] in ring
  {
    RingAt(m, ring, i);
    Distinct(ring, Onward(|ring|, i), 0);
    Distinct(ring, if i == 0 then |ring| - 1 else i - 1, 0);
  }

  lemma RingOne(m: Nodes, n: int)
    requires n in m.next && n in m.prev && m.next[n] == n && m.prev[n] == n
    ensures Ring(m, [n])
  {
  }

  lemma NotItself(ring: seq<int>, i: nat)
    requires NoRepeats(ring) && i < |ring| && |ring| > 1
    ensures ring[Onward(|ring|, i)] != ring[i] && ring[if i == 0 then |ring| - 1 else i - 1] != ring[i]
  {
  }

  lemma RemovedMembers(m: Nodes, ring: seq<int>, i: nat)
    requires Ring(m, ring) && i < |ring|
    ensures ring[i] !in ring[..i] + ring[i + 1..]
  {
    RemovedHas(ring, i);
  }
}
