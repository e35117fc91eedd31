/** Sequences that hold nothing twice. */
module Lists {

  ghost predicate NoRepeats<T>(q: seq<T>) {
    forall i, j :: 0 <= i < j < |q| ==> q[i] != q[j]
  }

  function InsertAt<T>(q: seq<T>, k: nat, t: T): seq<T>
    requires k <= |q|
  {
    q[..k] + [t] + q[k..]
  }

  lemma InsertAtPoints<T(!new)>(q: seq<T>, k: nat, t: T)
    requires k <= |q|
    ensures var r := InsertAt(q, k, t);
      && |r| == |q| + 1 && r[k] == t
      && (forall i :: 0 <= i < k ==> r[i] == q[i]) && (forall i :: k < i < |r| ==> r[i] == q[i - 1])
      && (forall x :: x in r <==> x in q || x == t)
  {
    var r := InsertAt(q, k, t);
    assert forall x :: x in q[..k] || x in q[k..] ==> x in q;
    assert q == q[..k] + q[k..];
  }

  lemma InsertAtKeeps<T(!new)>(q: seq<T>, k: nat, t: T)
    requires NoRepeats(q) && t !in q && k <= |q|
    ensures NoRepeats(InsertAt(q, k, t))
  {
    InsertAtPoints(q, k, t);
    hide InsertAt;
    var r := InsertAt(q, k, t);
    forall i, j | 0 <= i < j < |r|
      ensures r[i] != r[j]
    {
      var i', j' := if i < k then i else i - 1, if j < k then j else j - 1;
      assert i != k ==> r[i] == q[i'];
      assert j != k ==> r[j] == q[j'];
    }
  }

  function Without<T(==,!new)>(q: seq<T>, t: T): (r: seq<T>)
    ensures t !in r && forall x :: x in r <==> x in q && x != t
    ensures t !in q ==> r == q
  {
    if q == [] then [] else if q[0] == t then Without(q[1..], t) else [q[0]] + Without(q[1..], t)
  }

  lemma {:induction false} WithoutKeeps<T(!new)>(q: seq<T>, t: T)
    requires NoRepeats(q)
    ensures NoRepeats(Without(q, t))
  {
    if q != [] {
      WithoutKeeps(q[1..], t);
      var r := Without(q[1..], t);
      assert forall x :: x in r ==> x in q[1..];
      assert q[0] !in q[1..];
      hide Without;
      PrependNoRepeats(q[0], r);
    }
  }

  lemma PrependNoRepeats<T>(t: T, q: seq<T>)
    requires NoRepeats(q)
    ensures t !in q ==> NoRepeats([t] + q)
  {
    assert forall i :: 0 <= i < |q| ==> q[i] in q;
  }

  /** Without its first element, a sequence that holds nothing twice is its tail. */
  lemma WithoutFirst<T(!new)>(q: seq<T>)
    requires NoRepeats(q) && q != []
    ensures Without(q, q[0]) == q[1..] && q[0] !in q[1..] && NoRepeats(q[1..])
  {
  }

  /** Taking out what stands at place i. */
  lemma {:induction false} WithoutAt<T(!new)>(q: seq<T>, i: nat)
    requires NoRepeats(q) && i < |q|
    ensures Without(q, q[i]) == q[..i] + q[i + 1..]
  {
    hide Without, NoRepeats;
    WithoutFirst(q);
    if i > 0 {
      var r := q[1..];
      assert r[i - 1] == q[i] && r[i - 1] in r;
      WithoutNext(q, q[i]);
      WithoutAt(r, i - 1);
      assert r[..i - 1] == q[1..i] && r[i..] == q[i + 1..];
      Split(q, i);
    }
  }

  lemma WithoutNext<T(!new)>(q: seq<T>, t: T)
    requires q != [] && q[0] != t
    ensures Without(q, t) == [q[0]] + Without(q[1..], t)
  {
  }

  lemma Split<T>(q: seq<T>, i: nat)
    requires 0 < i < |q|
    ensures [q[0]] + (q[1..i] + q[i + 1..]) == q[..i] + q[i + 1..]
  {
  }
}
