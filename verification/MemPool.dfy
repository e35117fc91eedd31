/** The memory pool (src/mempool.c:85-132, 319-465): a list of free blocks, a count of them, and threads that wait
    for a block, the last to come in front. */
module MemPool {
  import opened Links
  import opened Lists
  import opened Waiting

  datatype State = State(
    free: seq<nat>,              // block_list
    live: set<nat>,              // blocks handed out
    wait: seq<Tid>,              // suspend_thread
    woken: set<Tid>)             // woken with RT_EOK and not yet back from rt_schedule

  datatype Event =
    | Alloc(t: Tid)
    | Fail(t: Tid)
    | Wait(t: Tid)
    | Free(b: nat)
    | TimedOut(t: Tid)

  ghost predicate Enabled(s: State, e: Event) {
    match e
    case Alloc(t) => s.free != [] && t !in s.wait
    case Fail(t) => s.free == [] && t !in s.wait
    case Wait(t) => s.free == [] && t !in s.wait
    case Free(b) => b in s.live
    case TimedOut(t) => t in s.wait
  }

  ghost function Apply(s: State, e: Event): State
    requires Enabled(s, e)
  {
    match e
    case Alloc(t) => s.(free := s.free[1..], live := s.live + {s.free[0]}, woken := s.woken - {t})
    case Fail(t) => s.(woken := s.woken - {t})
    case Wait(t) => s.(wait := InsertAt(s.wait, 0, t), woken := s.woken - {t})
    case Free(b) => s.(free := [b] + s.free, live := s.live - {b}, wait := Rest(s.wait), woken := WokenToo(s.wait, s.woken))
    case TimedOut(t) => s.(wait := Without(s.wait, t))
  }

  /** Every block of the pool is either on the free list, once, or handed out. */
  ghost predicate Shared(free: seq<nat>, live: set<nat>, total: nat) {
    && NoRepeats(free) && (forall b :: b in free ==> b !in live)
    && (forall b :: b in free || b in live <==> 1 <= b <= total)
  }

  ghost predicate Inv(s: State, total: nat) {
    Shared(s.free, s.live, total) && Served(s.wait, s.woken, |s.free|)
  }

  lemma StepKeeps(s: State, e: Event, total: nat)
    requires Inv(s, total) && Enabled(s, e)
    ensures Inv(Apply(s, e), total)
  {
    hide Served, InsertAt, Rest, WokenToo, Shared;
    match e
    case Alloc(t) =>
      TakeOne(s.wait, s.woken, |s.free|, t);
      TakeShared(s.free, s.live, total);
    case Fail(t) => GiveUp(s.wait, s.woken, t);
    case Wait(t) => JoinWait(s.wait, s.woken, t, 0);
    case Free(b) =>
      WakeOne(s.wait, s.woken, |s.free|);
      GiveShared(s.free, s.live, total, b);
    case TimedOut(t) => TimeOut(s.wait, s.woken, |s.free|, t);
  }

  /** The first free block is handed out. */
  lemma TakeShared(free: seq<nat>, live: set<nat>, total: nat)
    requires Shared(free, live, total) && free != []
    ensures Shared(free[1..], live + {free[0]}, total)
  {
    WithoutFirst(free);
    hide NoRepeats;
    assert free == [free[0]] + free[1..];
  }

  /** A block that was handed out comes back in front. */
  lemma GiveShared(free: seq<nat>, live: set<nat>, total: nat, b: nat)
    requires Shared(free, live, total) && b in live
    ensures Shared([b] + free, live - {b}, total)
  {
    PrependNoRepeats(b, free);
    hide NoRepeats;
  }

  ghost predicate Runs(s: State, run: seq<Event>)
    decreases |run|
  {
    run == [] || (Enabled(s, run[0]) && Runs(Apply(s, run[0]), run[1..]))
  }

  ghost function After(s: State, run: seq<Event>): State
    requires Runs(s, run)
    decreases |run|
  {
    if run == [] then s else After(Apply(s, run[0]), run[1..])
  }

  lemma {:induction false} RunKeeps(s: State, run: seq<Event>, total: nat)
    requires Inv(s, total) && Runs(s, run)
    ensures Inv(After(s, run), total)
    decreases |run|
  {
    hide Inv;
    if run != [] {
      StepKeeps(s, run[0], total);
      RunKeeps(Apply(s, run[0]), run[1..], total);
    }
  }

  /** Blocks are conserved: those on the list and those handed out make up the pool. */
  lemma Conservation(s: State, total: nat)
    requires Inv(s, total)
    ensures |s.free| + |s.live| == total
  {
    var elems := set b | b in s.free;
    CountDistinct(s.free, elems);
    assert elems + s.live == UpTo(total);
    assert elems !! s.live;
  }

  /** Freeing a block just handed out leaves the list and the blocks handed out as they were. */
  lemma RoundTrip(s: State, t: Tid, total: nat)
    requires Inv(s, total) && Enabled(s, Alloc(t))
    ensures var s1 := Apply(s, Alloc(t));
            Enabled(s1, Free(s.free[0])) && Apply(s1, Free(s.free[0])).free == s.free && Apply(s1, Free(s.free[0])).live == s.live
  {
    assert s.free[0] in s.free;
  }

  /** The block freed last is the next to be handed out. */
  lemma FreedFirst(s: State, t: Tid, b: nat)
    requires Enabled(s, Free(b)) && t !in s.wait
    ensures var s1 := Apply(s, Free(b));
      && s1.free == [b] + s.free && b !in s1.live
      && (t !in s1.wait ==> Enabled(s1, Alloc(t)) && Apply(s1, Alloc(t)).free == s.free && b in Apply(s1, Alloc(t)).live)
  {
  }

  /** The thread that came last is woken first, however long the others have waited. */
  lemma LastComeFirstWoken(s: State, t: Tid, b: nat)
    requires Enabled(s, Wait(t)) && b in s.live
    ensures var s1 := Apply(s, Wait(t));
            Enabled(s1, Free(b)) && Apply(s1, Free(b)).wait == s.wait && Apply(s1, Free(b)).woken == s.woken - {t} + {t}
  {
  }

  // ---------------------------------------------------------------- the pool

  /** Upward(i, n) is the free list rt_mp_init leaves, from block i on. */
  function Upward(i: nat, n: nat): (r: seq<nat>)
    requires i <= n + 1
    ensures |r| == n + 1 - i && forall k :: 0 <= k < |r| ==> r[k] == i + k
    decreases n + 1 - i
  {
    if i == n + 1 then [] else [i] + Upward(i + 1, n)
  }

  lemma UpwardShared(n: nat)
    ensures Shared(Upward(1, n), {}, n)
  {
    forall b
      ensures b in Upward(1, n) <==> 1 <= b <= n
    {
      if 1 <= b <= n {
        assert Upward(1, n)[b - 1] == b;
      }
    }
  }

  lemma UpwardChain(word: seq<nat>, n: nat)
    requires n > 0 && |word| == n + 1 && word[n] == 0 && forall k :: 1 <= k < n ==> word[k] == k + 1
    ensures Chain(word, 1, Upward(1, n))
  {
  }

  lemma SharedApart(free: seq<nat>, live: set<nat>, total: nat, b: nat)
    requires Shared(free, live, total) && b in live
    ensures b !in free && 1 <= b <= total
  {
  }

  lemma SharedFirst(free: seq<nat>, live: set<nat>, total: nat)
    requires Shared(free, live, total) && free != []
    ensures free[0] !in live && 1 <= free[0] <= total && free[0] !in free[1..]
  {
    WithoutFirst(free);
  }

  datatype Outcome = Done | Failed | Suspended

  class Pool {
    const total: nat                    // block_total_count
    const word: array<nat>              // first word of each block: link while free, else the pool; blocks count from 1
    var list: nat                       // block_list
    var count: nat                      // block_free_count
    var wait: seq<Tid>
    ghost var s: State

    ghost predicate Valid()
      reads this, word
    {
      && word.Length == total + 1 && Inv(s, total) && wait == s.wait
      && Chain(word[..], list, s.free) && count == |s.free|
      && forall b :: b in s.live ==> 0 < b < word.Length && word[b] == word.Length
    }

    /** rt_mp_init, for a pool with room for a block. */
    constructor (total: nat)
      requires total > 0
      ensures Valid() && s == State(Upward(1, total), {}, [], {}) && this.total == total && fresh(word)
    {
      this.total := total;
      word := new nat[total + 1](_ => 0);
      list, count := 1, total;
      wait := [];
      s := State(Upward(1, total), {}, [], {});
      new;
      UpwardShared(total);
      hide Upward, Shared;
      var offset := 0;
      while offset < total
        modifies word
        invariant offset <= total
        invariant forall k :: 1 <= k <= offset ==> word[k] == k + 1
      {
        word[offset + 1] := offset + 2;
        offset := offset + 1;
      }
      word[offset] := 0;
      UpwardChain(word[..], total);
    }

    /** One pass of rt_mp_alloc: a block, or RT_NULL if there is none and no time, or suspended. */
    method AllocOnce(t: Tid, time: int) returns (o: Outcome, block: nat)
      requires Valid() && t !in wait
      modifies word, this`list, this`count, this`wait, this`s
      ensures Valid()
      ensures o == if old(s.free) != [] then Done else if time == 0 then Failed else Suspended
      ensures o == Done ==> block == old(s.free[0]) && 1 <= block <= total && block !in old(s.live)
      ensures o != Done ==> block == 0
      ensures var e := match o case Done => Alloc(t) case Failed => Fail(t) case Suspended => Wait(t);
              Enabled(old(s), e) && s == Apply(old(s), e)
    {
      hide Inv, Chain, InsertAt;
      ghost var e := Fail(t);
      block := 0;
      if count == 0 {
        o := if time == 0 then Failed else Suspended;
        if time != 0 {
          e := Wait(t);
          wait := InsertAt(wait, 0, t);
        }
      } else {
        e := Alloc(t);
        FirstFree(word[..], list, s, total);
        count := count - 1;
        block := list;
        list := word[block];
        ghost var was := word[..];
        var pool: nat := word.Length;
        word[block] := pool;
        assert word[..] == was[block := pool];
        o := Done;
      }
      StepKeeps(s, e, total);
      s := Apply(s, e);
    }

    /** rt_mp_free; the wakeup, if any, carries RT_EOK. */
    method FreeBlock(block: nat)
      requires Valid() && block in s.live
      modifies word, this`list, this`count, this`wait, this`s
      ensures Valid() && Enabled(old(s), Free(block)) && s == Apply(old(s), Free(block))
    {
      hide Inv, Chain, WokenToo;
      LiveBlock(s, total, block);
      ChainPush(word[..], list, s.free, block);
      count := count + 1;
      ghost var was := word[..];
      word[block] := list;
      assert word[..] == was[block := list];
      list := block;
      wait := Rest(wait);
      StepKeeps(s, Free(block), total);
      s := Apply(s, Free(block));
    }

    method TimeOutThread(t: Tid)
      requires Valid() && t in wait
      modifies this`wait, this`s
      ensures Valid() && Enabled(old(s), TimedOut(t)) && s == Apply(old(s), TimedOut(t))
    {
      hide Inv, Chain, Without;
      StepKeeps(s, TimedOut(t), total);
      wait := Without(wait, t);
      s := Apply(s, TimedOut(t));
    }
  }

  lemma LiveBlock(s: State, total: nat, b: nat)
    requires Inv(s, total) && b in s.live
    ensures b !in s.free && 1 <= b <= total
  {
    SharedApart(s.free, s.live, total, b);
  }

  /** A count that is not zero means a block on the list, so the assertion of rt_mp_alloc holds. */
  lemma FirstFree(word: seq<nat>, list: nat, s: State, total: nat)
    requires Inv(s, total) && Chain(word, list, s.free) && s.free != [] && |word| == total + 1
    ensures list == s.free[0] && 1 <= list <= total && list !in s.live
    ensures Chain(word[list := |word|], word[list], s.free[1..])
  {
    ChainPop(word, list, s.free);
    SharedFirst(s.free, s.live, total);
    hide Chain, Inv;
    ChainFrame(word, word[list], s.free[1..], list, |word|);
  }
}
