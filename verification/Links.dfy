/** Singly linked lists threaded through a pool of numbered blocks: the free list of a memory pool, and the free list
    and the queue of a message queue. */
module Links {
  import opened Lists

  /** The links from head run through the list and end in RT_NULL, which is 0. */
  ghost predicate Chain(next: seq<nat>, head: nat, list: seq<nat>) {
    var ok :=
      && head == (if list == [] then 0 else list[0])
      && (forall i :: 0 <= i < |list| ==> 0 < list[i] < |next|)
      && (forall i, j :: 0 <= i && i + 1 == j < |list| ==> next[list[i]] == list[j])
      && (list != [] ==> next[list[|list| - 1]] == 0);
    ok
  }

  lemma ChainPop(next: seq<nat>, head: nat, list: seq<nat>)
    requires Chain(next, head, list)
    ensures head == 0 <==> list == []
    ensures head != 0 ==> head < |next| && head == list[0] && Chain(next, next[head], list[1..])
  {
    if list != [] {
      var rest := list[1..];
      assert forall i :: 0 <= i < |rest| ==> rest[i] == list[i + 1];
      assert |list| > 1 ==> next[list[0]] == list[1];
    }
  }

  lemma ChainFrame(next: seq<nat>, head: nat, list: seq<nat>, b: nat, link: nat)
    requires Chain(next, head, list) && b < |next| && b !in list
    ensures Chain(next[b := link], head, list)
  {
  }

  lemma ChainPush(next: seq<nat>, head: nat, list: seq<nat>, b: nat)
    requires Chain(next, head, list) && 0 < b < |next| && b !in list
    ensures Chain(next[b := head], b, [b] + list)
  {
    ChainFrame(next, head, list, b, head);
    var r := [b] + list;
    assert forall i :: 0 < i < |r| ==> r[i] == list[i - 1];
  }

  lemma ChainAppend(next: seq<nat>, head: nat, list: seq<nat>, b: nat)
    requires Chain(next, head, list) && 0 < b < |next| && b !in list && next[b] == 0 && NoRepeats(list)
    ensures list == [] ==> Chain(next, b, [b])
    ensures list != [] ==> list[|list| - 1] < |next| && Chain(next[list[|list| - 1] := b], head, list + [b])
  {
    if list != [] {
      var r, last := list + [b], list[|list| - 1];
      assert forall i :: 0 <= i < |list| ==> r[i] == list[i];
      assert last in list;
    }
  }

  lemma TailInside(next: seq<nat>, head: nat, list: seq<nat>)
    requires Chain(next, head, list) && list != []
    ensures 0 < list[|list| - 1] < |next|
  {
  }
}
