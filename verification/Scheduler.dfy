/** The ready queues and the scheduler of the single-core build (src/scheduler.c:169-191, 423-545, 718-845;
    src/thread.c:541-554, 728-771, 830-902), for both widths of the priority bitmap. */
module Scheduler {
  import opened Bits
  import opened Lists
  import opened Waiting

  // ---------------------------------------------------------------- the bitmap

  /** rt_thread_ready_priority_group and, beyond 32 priorities, rt_thread_ready_table. */
  datatype Bitmap = Bitmap(group: nat, table: seq<nat>)

  /** A bit is set exactly if the queue behind it is not empty. */
  ghost predicate Indexed(m: Bitmap, queues: seq<seq<Tid>>, wide: bool) {
    if wide then
      && |queues| <= 256 && |m.table| == 32
      && (forall n: nat, k: nat :: n < 32 ==> (Bit(m.table[n], k) <==> k < 8 && 8 * n + k < |queues| && queues[8 * n + k] != []))
      && (forall n: nat :: Bit(m.group, n) <==> n < 32 && m.table[n] != 0)
    else
      |queues| <= 32 && forall k: nat :: Bit(m.group, k) <==> k < |queues| && queues[k] != []
  }

  /** The bits of priority p: number_mask, and high_mask in the entry number of the table. */
  function Mark(m: Bitmap, p: nat, wide: bool): Bitmap
    requires wide ==> p / 8 < |m.table|
  {
    if wide then Bitmap(Or(m.group, Pow2(p / 8)), m.table[p / 8 := Or(m.table[p / 8], Pow2(p % 8))])
    else m.(group := Or(m.group, Pow2(p)))
  }

  function Unmark(m: Bitmap, p: nat, wide: bool): Bitmap
    requires wide ==> p / 8 < |m.table|
  {
    if wide then
      var entry := Clear(m.table[p / 8], Pow2(p % 8));
      Bitmap(if entry == 0 then Clear(m.group, Pow2(p / 8)) else m.group, m.table[p / 8 := entry])
    else m.(group := Clear(m.group, Pow2(p)))
  }

  lemma MarkIndexed(m: Bitmap, queues: seq<seq<Tid>>, wide: bool, p: nat, q: seq<Tid>)
    requires Indexed(m, queues, wide) && p < |queues| && q != []
    ensures wide ==> p / 8 < |m.table|
    ensures Indexed(Mark(m, p, wide), queues[p := q], wide)
  {
    hide Bit, Or, Clear, Pow2;
    if wide {
      MarkWide(m, queues, p, q);
    } else {
      forall k: nat
        ensures Bit(Or(m.group, Pow2(p)), k) <==> k < |queues| && queues[p := q][k] != []
      {
        BitOr(m.group, Pow2(p), k);
        BitPow2(p, k);
      }
    }
  }

  lemma MarkWide(m: Bitmap, queues: seq<seq<Tid>>, p: nat, q: seq<Tid>)
    requires Indexed(m, queues, true) && p < |queues| && q != []
    ensures Indexed(Mark(m, p, true), queues[p := q], true)
  {
    hide Bit, Or, Clear, Pow2;
    var m', queues' := Mark(m, p, true), queues[p := q];
    forall n: nat, k: nat | n < 32
      ensures Bit(m'.table[n], k) <==> k < 8 && 8 * n + k < |queues'| && queues'[8 * n + k] != []
    {
      BitOr(m.table[p / 8], Pow2(p % 8), k);
      BitPow2(p % 8, k);
    }
    forall n: nat
      ensures Bit(m'.group, n) <==> n < 32 && m'.table[n] != 0
    {
      BitOr(m.group, Pow2(p / 8), n);
      BitPow2(p / 8, n);
      if n == p / 8 {
        BitOr(m.table[n], Pow2(p % 8), p % 8);
        BitPow2(p % 8, p % 8);
        BitZero(p % 8);
      }
    }
  }

  lemma UnmarkIndexed(m: Bitmap, queues: seq<seq<Tid>>, wide: bool, p: nat)
    requires Indexed(m, queues, wide) && p < |queues|
    ensures wide ==> p / 8 < |m.table|
    ensures Indexed(Unmark(m, p, wide), queues[p := []], wide)
  {
    hide Bit, Or, Clear, Pow2;
    if wide {
      UnmarkWide(m, queues, p);
    } else {
      forall k: nat
        ensures Bit(Clear(m.group, Pow2(p)), k) <==> k < |queues| && queues[p := []][k] != []
      {
        BitClear(m.group, Pow2(p), k);
        BitPow2(p, k);
      }
    }
  }

  lemma UnmarkWide(m: Bitmap, queues: seq<seq<Tid>>, p: nat)
    requires Indexed(m, queues, true) && p < |queues|
    ensures Indexed(Unmark(m, p, true), queues[p := []], true)
  {
    hide Bit, Or, Clear, Pow2;
    var m', queues' := Unmark(m, p, true), queues[p := []];
    forall n: nat, k: nat | n < 32
      ensures Bit(m'.table[n], k) <==> k < 8 && 8 * n + k < |queues'| && queues'[8 * n + k] != []
    {
      BitClear(m.table[p / 8], Pow2(p % 8), k);
      BitPow2(p % 8, k);
    }
    forall n: nat
      ensures Bit(m'.group, n) <==> n < 32 && m'.table[n] != 0
    {
      BitClear(m.group, Pow2(p / 8), n);
      BitPow2(p / 8, n);
      if n == p / 8 && m'.table[n] != 0 {
        ZeroThrough(m.table[n], Pow2(p % 8));
      }
    }
  }

  lemma ZeroThrough(x: nat, y: nat)
    ensures Clear(x, y) != 0 ==> x != 0
  {
  }

  lemma SameIndexed(m: Bitmap, queues: seq<seq<Tid>>, wide: bool, p: nat, q: seq<Tid>)
    requires Indexed(m, queues, wide) && p < |queues| && (q == [] <==> queues[p] == [])
    ensures Indexed(m, queues[p := q], wide)
  {
    hide Bit;
  }

  /** The first queue that is not empty, or the number of queues. */
  function Lowest(queues: seq<seq<Tid>>): (p: nat)
    ensures p <= |queues| && (forall i :: 0 <= i < p ==> queues[i] == []) && (p < |queues| ==> queues[p] != [])
  {
    if queues == [] || queues[0] != [] then 0 else 1 + Lowest(queues[1..])
  }

  lemma LowestIs(queues: seq<seq<Tid>>, p: nat)
    requires p < |queues| && queues[p] != [] && forall i :: 0 <= i < p ==> queues[i] == []
    ensures Lowest(queues) == p
  {
  }

  function AnyFfs(value: nat, tiny: bool): nat
    requires value <= 0xFFFF_FFFF
  {
    if tiny then TinyFfs(value) else TableFfs(value)
  }

  lemma AnyFfsRight(value: nat, tiny: bool)
    requires value <= 0xFFFF_FFFF
    ensures AnyFfs(value, tiny) == Ffs(value)
  {
    TinyFfsRight(value);
    TableFfsRight(value);
    hide TinyFfs, TableFfs, Ffs;
  }

  lemma GroupFits(m: Bitmap, queues: seq<seq<Tid>>, wide: bool)
    requires Indexed(m, queues, wide)
    ensures m.group <= 0xFFFF_FFFF
    ensures wide ==> forall n: nat :: n < 32 ==> m.table[n] <= 0xFF
  {
    hide Bit, Pow2;
    Below(m.group, 32);
    Word();
    if wide {
      forall n: nat | n < 32
        ensures m.table[n] <= 0xFF
      {
        Below(m.table[n], 8);
      }
    }
  }

  /** The group is zero if and only if no thread is ready. */
  lemma GroupZero(m: Bitmap, queues: seq<seq<Tid>>, wide: bool)
    requires Indexed(m, queues, wide)
    ensures m.group == 0 <==> Lowest(queues) == |queues|
  {
    hide Bit, Ctz, Lowest;
    var p := Lowest(queues);
    if p < |queues| {
      BitZero(if wide then p / 8 else p);
      if wide {
        assert Bit(m.table[p / 8], p % 8) by {
          assert 8 * (p / 8) + p % 8 == p;
        }
        BitZero(p % 8);
      }
    } else if m.group != 0 {
      CtzLowest(m.group);
      var n := Ctz(m.group);
      if wide {
        CtzLowest(m.table[n]);
      }
      assert false;
    }
  }

  /** The index of _scheduler_get_highest_priority_thread. */
  function Highest(m: Bitmap, wide: bool, tiny: bool): int
    requires m.group <= 0xFFFF_FFFF
    requires wide ==> AnyFfs(m.group, tiny) >= 1 && AnyFfs(m.group, tiny) - 1 < |m.table|
                      && m.table[AnyFfs(m.group, tiny) - 1] <= 0xFFFF_FFFF
  {
    if wide then
      var number := AnyFfs(m.group, tiny) - 1;
      number * 8 + AnyFfs(m.table[number], tiny) - 1
    else AnyFfs(m.group, tiny) - 1
  }

  /** With either version of __rt_ffs and either width, the two-level lookup finds the most urgent queue. */
  lemma HighestIsLowest(m: Bitmap, queues: seq<seq<Tid>>, wide: bool, tiny: bool)
    requires Indexed(m, queues, wide) && m.group != 0
    ensures m.group <= 0xFFFF_FFFF
    ensures wide ==> AnyFfs(m.group, tiny) >= 1 && AnyFfs(m.group, tiny) - 1 < |m.table|
                     && m.table[AnyFfs(m.group, tiny) - 1] <= 0xFFFF_FFFF
    ensures Highest(m, wide, tiny) == Lowest(queues) < |queues|
  {
    hide Bit, Ctz, AnyFfs, Lowest, Indexed, Ffs;
    GroupFits(m, queues, wide);
    AnyFfsRight(m.group, tiny);
    FfsIs(m.group);
    CtzLowest(m.group);
    var n := Ctz(m.group);
    if wide {
      GroupAt(m, queues, n);
      AnyFfsRight(m.table[n], tiny);
      FfsIs(m.table[n]);
      CtzLowest(m.table[n]);
      LowestWide(m, queues, n, Ctz(m.table[n]));
    } else {
      LowestNarrow(m, queues, n);
    }
  }

  lemma FfsIs(x: nat)
    requires x > 0
    ensures Ffs(x) == Ctz(x) + 1
  {
  }

  lemma GroupAt(m: Bitmap, queues: seq<seq<Tid>>, n: nat)
    requires Indexed(m, queues, true)
    ensures |m.table| == 32 && (Bit(m.group, n) <==> n < 32 && m.table[n] != 0)
  {
    hide Bit;
  }

  lemma TableAt(m: Bitmap, queues: seq<seq<Tid>>, n: nat, k: nat)
    requires Indexed(m, queues, true) && n < 32
    ensures |m.table| == 32 && (Bit(m.table[n], k) <==> k < 8 && 8 * n + k < |queues| && queues[8 * n + k] != [])
  {
    hide Bit;
  }

  lemma LowestNarrow(m: Bitmap, queues: seq<seq<Tid>>, n: nat)
    requires Indexed(m, queues, false) && Bit(m.group, n) && forall k: nat :: k < n ==> !Bit(m.group, k)
    ensures n < |queues| && Lowest(queues) == n
  {
    hide Bit;
    LowestIs(queues, n);
  }

  lemma LowestWide(m: Bitmap, queues: seq<seq<Tid>>, n: nat, c: nat)
    requires Indexed(m, queues, true) && Bit(m.group, n) && forall k: nat :: k < n ==> !Bit(m.group, k)
    requires n < |m.table| && Bit(m.table[n], c) && forall k: nat :: k < c ==> !Bit(m.table[n], k)
    ensures n < 32 && 8 * n + c < |queues| && Lowest(queues) == 8 * n + c
  {
    hide Bit, Indexed, Lowest;
    GroupAt(m, queues, n);
    TableAt(m, queues, n, c);
    var p := 8 * n + c;
    forall i | 0 <= i < p
      ensures queues[i] == []
    {
      var row, k := i / 8, i % 8;
      assert 8 * row + k == i;
      GroupAt(m, queues, row);
      TableAt(m, queues, row, k);
      BitZero(k);
    }
    LowestIs(queues, p);
  }

  // ---------------------------------------------------------------- threads and dispatch

  datatype Stat = Init | Ready | Suspended | Running

  datatype State = State(
    queues: seq<seq<Tid>>,        // rt_thread_priority_table
    prio: seq<nat>,               // current_priority of each thread
    stat: seq<Stat>,              // stat of each thread
    yielded: set<Tid>,            // RT_THREAD_STAT_YIELD
    current: Tid,                 // rt_current_thread
    locked: nat)                  // rt_scheduler_lock_nest

  /** A thread that is READY is in the queue of its priority, once, and in no other; a thread that is not READY is in
      none. */
  ghost predicate Placed(queues: seq<seq<Tid>>, prio: seq<nat>, stat: seq<Stat>) {
    && |prio| == |stat| && (forall t: Tid :: t < |prio| ==> prio[t] < |queues|)
    && (forall p: nat :: p < |queues| ==> NoRepeats(queues[p]))
    && (forall p: nat, t: Tid {:trigger t in queues[p]} :: p < |queues| && t in queues[p] ==> t < |stat| && stat[t] == Ready && prio[t] == p)
    && (forall t: Tid :: t < |stat| && stat[t] == Ready ==> t in queues[prio[t]])
  }

  /** Nobody but the current thread is RUNNING, and that is not READY. */
  ghost predicate Good(s: State) {
    && Placed(s.queues, s.prio, s.stat) && s.current < |s.stat| && s.stat[s.current] != Ready
    && forall t: Tid :: t < |s.stat| && s.stat[t] == Running ==> t == s.current
  }

  lemma PlacedAt(s: State, p: nat, t: Tid)
    requires Placed(s.queues, s.prio, s.stat) && p < |s.queues|
    ensures |s.stat| == |s.prio|
    ensures t in s.queues[p] <==> t < |s.stat| && s.stat[t] == Ready && s.prio[t] == p
  {
    assert t in s.queues[p] ==> t < |s.stat| && s.stat[t] == Ready && s.prio[t] == p;
    assert t < |s.stat| && s.stat[t] == Ready && s.prio[t] == p ==> t in s.queues[p];
  }

  /** rt_schedule_insert_thread. */
  function Inserted(s: State, t: Tid): State
    requires t < |s.stat| == |s.prio| && s.prio[t] < |s.queues|
  {
    if t == s.current then s.(stat := s.stat[t := Running])
    else s.(stat := s.stat[t := Ready], queues := s.queues[s.prio[t] := s.queues[s.prio[t]] + [t]])
  }

  /** rt_schedule_remove_thread. */
  function Removed(s: State, t: Tid): State
    requires t < |s.prio| && s.prio[t] < |s.queues|
  {
    s.(queues := s.queues[s.prio[t] := Without(s.queues[s.prio[t]], t)])
  }

  lemma InsertedGood(s: State, t: Tid)
    requires Good(s) && t < |s.stat| && (s.stat[t] == Suspended || s.stat[t] == Init)
    ensures s.prio[t] < |s.queues| && Good(Inserted(s, t))
  {
    hide Placed, NoRepeats;
    PlacedParts(s.queues, s.prio, s.stat);
    if t != s.current {
      EnqueuedPlaced(s.queues, s.prio, s.stat, t);
    } else {
      StatPlaced(s.queues, s.prio, s.stat, t, Running);
    }
  }

  /** A thread that is not READY may take any other state but READY. */
  lemma StatPlaced(queues: seq<seq<Tid>>, prio: seq<nat>, stat: seq<Stat>, t: Tid, other: Stat)
    requires Placed(queues, prio, stat) && t < |stat| && stat[t] != Ready && other != Ready
    ensures Placed(queues, prio, stat[t := other])
  {
    hide NoRepeats;
  }

  /** A thread leaves the ready queues for good, or changes its priority while it is out of them. */
  lemma RemovedPlaced(s: State, t: Tid, stat: Stat, p: nat)
    requires Placed(s.queues, s.prio, s.stat) && t < |s.stat| && stat != Ready && p < |s.queues|
    ensures s.prio[t] < |s.queues| && Placed(Removed(s, t).queues, s.prio[t := p], s.stat[t := stat])
  {
    WithoutKeeps(s.queues[s.prio[t]], t);
    hide NoRepeats, Without;
    var queues', prio', stat' := Removed(s, t).queues, s.prio[t := p], s.stat[t := stat];
    forall q: nat, x: Tid | q < |queues'| && x in queues'[q]
      ensures x < |stat'| && stat'[x] == Ready && prio'[x] == q
    {
      assert x in s.queues[q];
    }
    forall x: Tid | x < |stat'| && stat'[x] == Ready
      ensures x in queues'[prio'[x]]
    {
      assert x in s.queues[s.prio[x]];
    }
  }

  /** All threads that are mentioned exist, and all priorities. */
  ghost predicate Sane(s: State) {
    && s.current < |s.stat| == |s.prio| && (forall t: Tid :: t < |s.prio| ==> s.prio[t] < |s.queues|)
    && (forall p: nat, i: nat :: p < |s.queues| && i < |s.queues[p]| ==> s.queues[p][i] < |s.prio|)
  }

  /** What rt_schedule does: a running thread stays if it is more urgent than every ready thread, or as urgent as the
      most urgent of them and has not yielded; otherwise it goes to the end of its queue and the first thread of the
      most urgent queue takes over. */
  ghost function Scheduled(s: State): State
    requires Sane(s)
  {
    var h := Lowest(s.queues);
    if s.locked != 0 || h == |s.queues| then s
    else
      var from := s.current;
      var to, runs := s.queues[h][0], s.stat[from] == Running;
      var s1 := if runs then s.(yielded := s.yielded - {from}) else s;
      if runs && (s.prio[from] < h || (s.prio[from] == h && from !in s.yielded)) then s1
      else
        var s2 := s1.(current := to);
        var s3 := if runs then Inserted(s2, from) else s2;
        Removed(s3, to).(stat := s3.stat[to := Running])
  }

  lemma GoodSane(s: State)
    requires Good(s)
    ensures Sane(s) && s.prio[s.current] < |s.queues|
  {
    forall p: nat, i: nat | p < |s.queues| && i < |s.queues[p]|
      ensures s.queues[p][i] < |s.prio|
    {
      var t := s.queues[p][i];
      assert t in s.queues[p];
      PlacedAt(s, p, t);
    }
  }

  lemma EnqueuedPlaced(queues: seq<seq<Tid>>, prio: seq<nat>, stat: seq<Stat>, t: Tid)
    requires Placed(queues, prio, stat) && t < |stat| && stat[t] != Ready
    ensures prio[t] < |queues|
    ensures Placed(queues[prio[t] := queues[prio[t]] + [t]], prio, stat[t := Ready])
  {
    var q := queues[prio[t]];
    assert t !in q;
    assert NoRepeats(q + [t]) by {
      assert forall i :: 0 <= i < |q| ==> q[i] in q;
    }
    hide NoRepeats;
    var queues', stat' := queues[prio[t] := q + [t]], stat[t := Ready];
    forall p: nat, x: Tid | p < |queues'| && x in queues'[p]
      ensures x < |stat'| && stat'[x] == Ready && prio[x] == p
    {
      assert x != t || p != prio[t] ==> x in queues[p];
    }
    forall x: Tid | x < |stat'| && stat'[x] == Ready
      ensures x in queues'[prio[x]]
    {
      assert x != t ==> x in queues[prio[x]];
    }
  }

  lemma ReadyAtLeast(s: State)
    requires Placed(s.queues, s.prio, s.stat)
    ensures forall t: Tid :: t < |s.stat| && s.stat[t] == Ready ==> s.prio[t] >= Lowest(s.queues)
  {
    forall t: Tid | t < |s.stat| && s.stat[t] == Ready
      ensures s.prio[t] >= Lowest(s.queues)
    {
      PlacedAt(s, s.prio[t], t);
    }
  }

  /** The state after the running thread, if it is running, has gone back to its queue. */
  function Requeued(s: State): State
    requires s.current < |s.stat| == |s.prio| && s.prio[s.current] < |s.queues|
  {
    if s.stat[s.current] == Running then
      var p := s.prio[s.current];
      s.(queues := s.queues[p := s.queues[p] + [s.current]], stat := s.stat[s.current := Ready],
         yielded := s.yielded - {s.current})
    else s
  }

  predicate Stays(s: State, h: nat)
    requires s.current < |s.stat| == |s.prio|
  {
    s.stat[s.current] == Running
    && (s.prio[s.current] < h || (s.prio[s.current] == h && s.current !in s.yielded))
  }

  /** The thread that rt_schedule looks at is ready, and not the current one. */
  lemma FirstReady(s: State)
    requires Good(s) && Lowest(s.queues) < |s.queues|
    ensures s.current < |s.stat| == |s.prio| && s.prio[s.current] < |s.queues|
    ensures var to := s.queues[Lowest(s.queues)][0];
            to < |s.stat| && s.stat[to] == Ready && s.prio[to] < |s.queues| && to != s.current
  {
    GoodSane(s);
    var h := Lowest(s.queues);
    assert s.queues[h][0] in s.queues[h];
    PlacedAt(s, h, s.queues[h][0]);
  }

  /** A switch is a return to the queue followed by the dispatch of the first thread of the most urgent queue. */
  lemma SwitchIs(s: State)
    requires Good(s) && s.locked == 0 && Lowest(s.queues) < |s.queues| && !Stays(s, Lowest(s.queues))
    ensures s.current < |s.stat| == |s.prio| && s.prio[s.current] < |s.queues|
    ensures var r, h := Requeued(s), Lowest(s.queues);
      var to := s.queues[h][0];
      && Placed(r.queues, r.prio, r.stat) && to < |r.prio| && r.stat[to] == Ready && r.prio[to] == h && to != s.current
      && (forall i: nat :: i < |s.queues| && i != h && s.stat[s.current] != Running ==> r.queues[i] == s.queues[i])
    ensures Sane(s)
    ensures var r, to := Requeued(s), s.queues[Lowest(s.queues)][0];
            Scheduled(s) == Removed(r, to).(stat := r.stat[to := Running], current := to)
  {
    hide Lowest, Without;
    GoodSane(s);
    var h := Lowest(s.queues);
    var to := s.queues[h][0];
    assert to in s.queues[h];
    PlacedAt(s, h, to);
    if s.stat[s.current] == Running {
      EnqueuedPlaced(s.queues, s.prio, s.stat, s.current);
    }
  }

  /** rt_schedule keeps every queue in order, and unless the scheduler is locked it leaves a thread running that no
      ready thread is more urgent than. */
  lemma ScheduledGood(s: State)
    requires Good(s)
    ensures Sane(s)
    ensures var s' := Scheduled(s);
      && Good(s') && s'.prio == s.prio && s'.locked == s.locked && |s'.queues| == |s.queues|
      && (s.locked == 0 && (s.stat[s.current] == Running || Lowest(s.queues) < |s.queues|) ==>
            s'.stat[s'.current] == Running
            && forall t: Tid :: t < |s.prio| && s'.stat[t] == Ready ==> s.prio[s'.current] <= s.prio[t])
  {
    hide Lowest, Without, Placed;
    GoodSane(s);
    ReadyAtLeast(s);
    var h := Lowest(s.queues);
    PlacedParts(s.queues, s.prio, s.stat);
    if s.locked == 0 && h < |s.queues| && !Stays(s, h) {
      SwitchIs(s);
      hide Scheduled;
      var r, to := Requeued(s), s.queues[h][0];
      RemovedPlaced(r, to, Running, r.prio[to]);
      assert r.prio[to := r.prio[to]] == r.prio;
    } else if s.locked == 0 && h == |s.queues| {
      NoneReady(s);
    }
  }

  lemma PlacedParts(queues: seq<seq<Tid>>, prio: seq<nat>, stat: seq<Stat>)
    requires Placed(queues, prio, stat)
    ensures |prio| == |stat| && forall t: Tid :: t < |prio| ==> prio[t] < |queues|
  {
  }

  lemma NoneReady(s: State)
    requires Good(s) && Lowest(s.queues) == |s.queues|
    ensures forall t: Tid :: t < |s.stat| ==> s.stat[t] != Ready
  {
    ReadyAtLeast(s);
    hide Lowest;
  }

  /** In terms of the queues alone: h is the most urgent priority at which a thread is ready. A running thread goes on if it
      is more urgent than that, or as urgent and has not yielded. Otherwise it joins the end of its queue, and the thread
      that has been in queue h longest runs. A locked scheduler changes nothing, and neither does one with nobody ready. */
  lemma ScheduledMeans(s: State, h: nat)
    requires Good(s)
    requires h <= |s.queues| && (forall p: nat :: p < h ==> s.queues[p] == []) && (h < |s.queues| ==> s.queues[h] != [])
    ensures Sane(s) && s.prio[s.current] < |s.queues|
    ensures var s', p, runs := Scheduled(s), s.prio[s.current], s.stat[s.current] == Running;
      if s.locked != 0 || h == |s.queues| then s' == s
      else if runs && (p < h || (p == h && s.current !in s.yielded)) then s' == s.(yielded := s.yielded - {s.current})
      else
        && s'.current == s.queues[h][0] && s'.current < |s'.stat| && s'.stat[s'.current] == Running && |s'.queues| == |s.queues|
        && s'.queues[h] == s.queues[h][1..] + (if runs && p == h then [s.current] else [])
        && (forall q: nat :: q < |s.queues| && q != h ==> s'.queues[q] == s.queues[q] + (if runs && q == p then [s.current] else []))
  {
    hide Lowest, Placed, Without, NoRepeats;
    GoodSane(s);
    if h < |s.queues| {
      LowestIs(s.queues, h);
      FirstLeaves(s, h);
      assert s.queues[h][1..] + [] == s.queues[h][1..];
      assert forall q: nat :: q < |s.queues| ==> s.queues[q] + [] == s.queues[q];
    } else {
      LowestNone(s.queues);
    }
  }

  lemma LowestNone(queues: seq<seq<Tid>>)
    requires forall p: nat :: p < |queues| ==> queues[p] == []
    ensures Lowest(queues) == |queues|
  {
  }

  lemma FirstLeaves(s: State, h: nat)
    requires Good(s) && h < |s.queues| && s.queues[h] != []
    ensures var q := s.queues[h];
      && q[0] != s.current && q[0] < |s.stat| == |s.prio| && s.prio[q[0]] == h
      && Without<Tid>(q, q[0]) == q[1..] && Without<Tid>(q + [s.current], q[0]) == q[1..] + [s.current]
  {
    var q := s.queues[h];
    assert q[0] in q;
    PlacedAt(s, h, q[0]);
    PlacedAt(s, h, s.current);
    assert NoRepeats(q + [s.current]) by {
      assert forall i :: 0 <= i < |q| ==> q[i] in q;
    }
    WithoutFirst(q);
    WithoutFirst(q + [s.current]);
  }

  /** Threads that become ready one after the other. */
  ghost predicate CanRise(s: State, ts: seq<Tid>, p: nat) {
    && |s.stat| == |s.prio| && NoRepeats(ts)
    && forall t :: t in ts ==> t < |s.stat| && s.stat[t] == Suspended && s.prio[t] == p && t != s.current
  }

  ghost function Risen(s: State, ts: seq<Tid>, p: nat): State
    requires Good(s) && p < |s.queues| && CanRise(s, ts, p)
    decreases |ts|
  {
    if ts == [] then s else
      OneRises(s, ts, p);
      Risen(Inserted(s, ts[0]), ts[1..], p)
  }

  lemma OneRises(s: State, ts: seq<Tid>, p: nat)
    requires Good(s) && p < |s.queues| && CanRise(s, ts, p) && ts != []
    ensures var t := ts[0];
      && t < |s.stat| == |s.prio| && s.prio[t] == p && t != s.current && Good(Inserted(s, t)) && CanRise(Inserted(s, t), ts[1..], p)
  {
    assert ts[0] in ts;
    InsertedGood(s, ts[0]);
    WithoutFirst(ts);
    assert forall x :: x in ts[1..] ==> x in ts;
    hide Good, NoRepeats;
  }

  /** They queue up in that order behind those that were ready before. */
  lemma {:induction false} RisenInOrder(s: State, ts: seq<Tid>, p: nat)
    requires Good(s) && p < |s.queues| && CanRise(s, ts, p)
    ensures var r := Risen(s, ts, p);
      && Good(r) && r.queues == s.queues[p := s.queues[p] + ts]
      && r.current == s.current && r.locked == s.locked && r.yielded == s.yielded && r.prio == s.prio && |r.stat| == |s.stat|
    decreases |ts|
  {
    hide Good, CanRise;
    if ts == [] {
      assert s.queues[p] + [] == s.queues[p];
    } else {
      OneRises(s, ts, p);
      RisenInOrder(Inserted(s, ts[0]), ts[1..], p);
      assert s.queues[p] + [ts[0]] + ts[1..] == s.queues[p] + ts;
    }
  }

  /** The running thread suspends itself. */
  ghost function Blocked(s: State): State
    requires Good(s)
  {
    var s' := s.(stat := s.stat[s.current := Suspended]);
    StatPlaced(s.queues, s.prio, s.stat, s.current, Suspended);
    GoodSane(s');
    Scheduled(s')
  }

  ghost function AfterBlocks(s: State, n: nat): (r: State)
    requires Good(s)
    ensures Good(r)
    decreases n
  {
    if n == 0 then s else
      BlockedGood(s);
      AfterBlocks(Blocked(s), n - 1)
  }

  lemma BlockedGood(s: State)
    requires Good(s)
    ensures Good(Blocked(s))
  {
    StatPlaced(s.queues, s.prio, s.stat, s.current, Suspended);
    var s' := s.(stat := s.stat[s.current := Suspended]);
    ScheduledGood(s');
    hide Placed, Scheduled;
  }

  /** As one thread after the other suspends itself, those at the most urgent priority run in the order of their queue. */
  lemma {:induction false} RunInOrder(s: State, p: nat, n: nat)
    requires Good(s) && s.locked == 0 && p < |s.queues| && (forall q: nat :: q < p ==> s.queues[q] == []) && 1 <= n <= |s.queues[p]|
    ensures AfterBlocks(s, n).current == s.queues[p][n - 1]
    decreases n
  {
    hide Placed, Scheduled, Lowest;
    var s' := s.(stat := s.stat[s.current := Suspended]);
    StatPlaced(s.queues, s.prio, s.stat, s.current, Suspended);
    ScheduledMeans(s', p);
    BlockedGood(s);
    var b := Blocked(s);
    ScheduledGood(s');
    assert AfterBlocks(s, n) == AfterBlocks(b, n - 1);
    if n > 1 {
      RunInOrder(b, p, n - 1);
    }
  }

  /** Threads of one priority that become ready one after the other run in that order, once it is their priority's turn. */
  lemma FirstReadyFirstRun(s: State, ts: seq<Tid>, p: nat, n: nat)
    requires Good(s) && s.locked == 0 && p < |s.queues| && CanRise(s, ts, p) && (forall q: nat :: q <= p ==> s.queues[q] == [])
    requires 1 <= n <= |ts|
    ensures Good(Risen(s, ts, p)) && AfterBlocks(Risen(s, ts, p), n).current == ts[n - 1]
  {
    hide Good, Risen, CanRise;
    RisenInOrder(s, ts, p);
    RunInOrder(Risen(s, ts, p), p, n);
  }

  // ---------------------------------------------------------------- round robin

  /** The running thread and those behind it at the same priority. */
  function Ring(s: State): seq<Tid>
    requires s.current < |s.prio| && s.prio[s.current] < |s.queues|
  {
    [s.current] + s.queues[s.prio[s.current]]
  }

  /** A thread is running and no ready thread is more urgent. */
  ghost predicate Settled(s: State) {
    Good(s) && s.locked == 0 && s.stat[s.current] == Running && s.prio[s.current] <= Lowest(s.queues)
  }

  ghost function Yielded(s: State): State
    requires Good(s)
  {
    GoodSane(s);
    Scheduled(s.(yielded := s.yielded + {s.current}))
  }

  /** A yield moves the running thread to the end of its ring and runs the next one of the same priority. */
  lemma YieldRotates(s: State)
    requires Settled(s)
    ensures s.current < |s.prio| && s.prio[s.current] < |s.queues|
    ensures var s' := Yielded(s);
      && Settled(s') && s'.current < |s'.prio| && s'.prio[s'.current] < |s'.queues|
      && Ring(s') == Ring(s)[1..] + [s.current] && s'.prio == s.prio && s'.prio[s'.current] == s.prio[s.current]
  {
    hide Lowest, Without, Placed;
    GoodSane(s);
    var y := s.(yielded := s.yielded + {s.current});
    var p, h := s.prio[s.current], Lowest(s.queues);
    ScheduledGood(y);
    if h == p {
      var q := s.queues[p];
      SwitchIs(y);
      YieldQueue(s);
      hide Scheduled;
      var s' := Yielded(s);
      assert s'.queues == s.queues[p := q[1..] + [s.current]];
      LowestFrom(s'.queues, p);
      assert Ring(s') == q + [s.current];
    } else {
      LowestEmpty(s.queues, p);
      assert Ring(s) == [s.current];
    }
  }

  lemma YieldQueue(s: State)
    requires Good(s) && s.stat[s.current] == Running && s.prio[s.current] < |s.queues| && s.queues[s.prio[s.current]] != []
    ensures var q := s.queues[s.prio[s.current]];
            Without(q + [s.current], q[0]) == q[1..] + [s.current]
  {
    var q := s.queues[s.prio[s.current]];
    PlacedAt(s, s.prio[s.current], s.current);
    assert NoRepeats(q + [s.current]) by {
      assert forall i :: 0 <= i < |q| ==> q[i] in q;
    }
    WithoutFirst(q + [s.current]);
  }

  lemma LowestFrom(queues: seq<seq<Tid>>, p: nat)
    requires p < |queues| && forall i :: 0 <= i < p ==> queues[i] == []
    ensures Lowest(queues) >= p
  {
  }

  lemma LowestEmpty(queues: seq<seq<Tid>>, p: nat)
    requires p < Lowest(queues)
    ensures p < |queues| && queues[p] == []
  {
  }

  ghost function AfterYields(s: State, n: nat): (r: State)
    requires Settled(s)
    ensures Settled(r)
    decreases n
  {
    if n == 0 then s else
      YieldRotates(s);
      AfterYields(Yielded(s), n - 1)
  }

  /** Among n threads of equal priority, each runs within n yields, in the order of the ring. */
  lemma {:induction false} EachRuns(s: State, j: nat)
    requires Settled(s) && s.current < |s.prio| && s.prio[s.current] < |s.queues| && j <= |Ring(s)|
    ensures var r := AfterYields(s, j);
      && r.current < |r.prio| && r.prio[r.current] < |r.queues| && Ring(r) == Ring(s)[j..] + Ring(s)[..j]
      && (j < |Ring(s)| ==> r.current == Ring(s)[j]) && (j == |Ring(s)| ==> Ring(r) == Ring(s))
    decreases j
  {
    hide Yielded;
    if j > 0 {
      YieldRotates(s);
      var s1 := Yielded(s);
      EachRuns(s1, j - 1);
      var a := Ring(s);
      assert Ring(s1) == a[1..] + [a[0]];
      assert Ring(s1)[j - 1..] + Ring(s1)[..j - 1] == a[j..] + a[..j];
    }
    var r := AfterYields(s, j);
    assert Ring(r)[0] == r.current;
  }

  /** A yield is remembered if and only if it meets no thread that is ready, of whatever priority, or a scheduler that is
      locked; otherwise rt_schedule takes the mark away, whether or not it switches. */
  lemma YieldRemembered(s: State)
    requires Good(s) && s.stat[s.current] == Running
    ensures s.current in Yielded(s).yielded <==> s.locked != 0 || Lowest(s.queues) == |s.queues|
    ensures s.locked != 0 || Lowest(s.queues) == |s.queues| ==> Yielded(s) == s.(yielded := s.yielded + {s.current})
  {
    hide Lowest, Without, Placed;
    GoodSane(s);
  }

  /** What becomes of a mark that is left behind: when a thread of equal priority becomes ready later, the next
      rt_schedule switches to it although nobody has yielded since. */
  lemma YieldKept(s: State, t: Tid)
    requires Settled(s) && Lowest(s.queues) == |s.queues| && t < |s.stat| && t != s.current
    requires s.stat[t] == Suspended && s.prio[t] == s.prio[s.current]
    ensures var y := Yielded(s);
      && y == s.(yielded := s.yielded + {s.current}) && s.prio[t] < |s.queues| && t < |y.stat| == |y.prio|
      && Good(Inserted(y, t)) && Lowest(Inserted(y, t).queues) == s.prio[t]
      && !Stays(Inserted(y, t), s.prio[t])
      && Sane(Inserted(y, t)) && Scheduled(Inserted(y, t)).current == t
  {
    GoodSane(s);
    InsertedGood(s.(yielded := s.yielded + {s.current}), t);
    hide Placed, Without;
    var i := Inserted(Yielded(s), t);
    GoodSane(i);
    assert i.queues[s.prio[t]] != [];
    LowestIs(i.queues, s.prio[t]);
    LowestEmpty(s.queues, s.prio[t]);
    assert i.queues[s.prio[t]] == [t];
  }

  // ---------------------------------------------------------------- the scheduler

  /** number, number_mask and high_mask of a thread; the narrow build has only the second. */
  datatype Masks = Masks(number: nat, numberMask: nat, highMask: nat)

  /** What rt_thread_startup and a change of priority work out for priority p. */
  function MasksOf(p: nat, wide: bool): Masks {
    if wide then Masks(p / 8, Pow2(p / 8), Pow2(p % 8)) else Masks(0, Pow2(p), 0)
  }

  class Kernel {
    const wide: bool                    // RT_THREAD_PRIORITY_MAX > 32
    const tiny: bool                    // RT_USING_TINY_FFS
    var queues: seq<seq<Tid>>           // rt_thread_priority_table
    var group: nat                      // rt_thread_ready_priority_group
    var table: seq<nat>                 // rt_thread_ready_table
    var prio: seq<nat>                  // current_priority
    var masks: seq<Masks>               // number, number_mask and high_mask
    var stat: seq<Stat>
    var yielded: set<Tid>
    var current: Tid
    var locked: nat

    ghost function Now(): State
      reads this
    {
      State(queues, prio, stat, yielded, current, locked)
    }

    /** The bitmap agrees with the queues. */
    ghost predicate Agrees()
      reads this
    {
      Indexed(Bitmap(group, table), queues, wide)
    }

    /** From its startup on, a thread's masks are those of its priority. */
    ghost predicate Masked()
      reads this
    {
      |masks| == |prio| == |stat| && forall t: Tid :: t < |stat| && stat[t] != Init ==> masks[t] == MasksOf(prio[t], wide)
    }

    ghost predicate Valid()
      reads this
    {
      Agrees() && Masked() && Good(Now())
    }

    /** rt_system_scheduler_init, and the start with one thread that is never ready for another's place: the threads
        given are there, and the first of them runs. */
    constructor (levels: nat, wide: bool, tiny: bool, prio: seq<nat>)
      requires levels <= (if wide then 256 else 32) && |prio| > 0 && forall t: Tid :: t < |prio| ==> prio[t] < levels
      ensures Valid() && this.wide == wide && this.tiny == tiny && |queues| == levels && this.prio == prio
      ensures current == 0 && locked == 0 && stat[0] == Running && forall t: Tid :: 0 < t < |prio| ==> stat[t] == Init
    {
      this.wide, this.tiny, this.prio := wide, tiny, prio;
      queues, group, table := seq(levels, _ => []), 0, seq(32, _ => 0);
      stat := seq(|prio|, i => if i == 0 then Running else Init);
      masks := seq(|prio|, i requires 0 <= i < |prio| => if i == 0 then MasksOf(prio[0], wide) else Masks(0, 0, 0));
      yielded, current, locked := {}, 0, 0;
      new;
      NothingReady(queues, wide);
      hide Indexed;
    }

    method InsertThread(t: Tid)
      requires Agrees() && t < |stat| == |prio| && prio[t] < |queues| && t < |masks| && masks[t] == MasksOf(prio[t], wide)
      modifies this`queues, this`group, this`table, this`stat
      ensures Agrees() && Now() == Inserted(old(Now()), t)
      ensures t != current ==> queues == old(queues)[prio[t] := old(queues)[prio[t]] + [t]] && stat == old(stat)[t := Ready]
    {
      hide Indexed;
      if t == current {
        stat := stat[t := Running];
        return;
      }
      var p := prio[t];
      MarkIndexed(Bitmap(group, table), queues, wide, p, queues[p] + [t]);
      stat := stat[t := Ready];
      queues := queues[p := queues[p] + [t]];
      if wide {
        table := table[masks[t].number := Or(table[masks[t].number], masks[t].highMask)];
      }
      group := Or(group, masks[t].numberMask);
    }

    method RemoveThread(t: Tid)
      requires Agrees() && t < |prio| && prio[t] < |queues| && t < |masks| && masks[t] == MasksOf(prio[t], wide)
      modifies this`queues, this`group, this`table
      ensures Agrees() && Now() == Removed(old(Now()), t)
    {
      hide Indexed, Without;
      var p := prio[t];
      UnmarkIndexed(Bitmap(group, table), queues, wide, p);
      ShorterIndexed(Bitmap(group, table), queues, wide, p, t);
      queues := queues[p := Without(queues[p], t)];
      if queues[p] == [] {
        if wide {
          table := table[masks[t].number := Clear(table[masks[t].number], masks[t].highMask)];
          if table[masks[t].number] == 0 {
            group := Clear(group, masks[t].numberMask);
          }
        } else {
          group := Clear(group, masks[t].numberMask);
        }
      }
    }

    /** rt_schedule. */
    method Schedule()
      requires Valid()
      modifies this`queues, this`group, this`table, this`stat, this`yielded, this`current
      ensures Valid() && Sane(old(Now())) && Now() == Scheduled(old(Now()))
    {
      hide Indexed, Placed, Lowest, Without, Highest, AnyFfs, MasksOf;
      ScheduledGood(Now());
      GroupZero(Bitmap(group, table), queues, wide);
      if locked == 0 && group != 0 {
        HighestIsLowest(Bitmap(group, table), queues, wide, tiny);
        var h := Highest(Bitmap(group, table), wide, tiny);
        FirstReady(Now());
        var from, to := current, queues[h][0];
        var goes := false;
        if stat[from] == Running {
          if prio[from] < h {
            to := from;
          } else if prio[from] == h && from !in yielded {
            to := from;
          } else {
            goes := true;
          }
          yielded := yielded - {from};
        }
        if to != from {
          SwitchTo(to, goes);
        } else {
          GoOn();
        }
      }
    }

    /** The running thread, which is in no queue, is taken out of its queue all the same. */
    method GoOn()
      requires Agrees() && Masked() && Good(Now()) && stat[current] == Running
      modifies this`queues, this`group, this`table, this`stat
      ensures Agrees() && Now() == old(Now())
    {
      hide Indexed, Without, MasksOf, Placed;
      RunningNotQueued(Now());
      RemoveThread(current);
      assert queues == old(queues);
      stat := stat[current := Running];
    }

    /** Thread to takes over; the running one, if it goes on wanting to run, to the end of its queue. */
    method SwitchTo(to: Tid, goes: bool)
      requires Agrees() && Masked() && current < |stat| && to < |stat| && to != current
      requires prio[current] < |queues| && prio[to] < |queues| && stat[to] == Ready && (goes ==> stat[current] == Running)
      modifies this`queues, this`group, this`table, this`stat, this`current
      ensures Agrees() && Masked()
      ensures var s := old(Now()).(current := to);
        var r := if goes then Inserted(s, old(current)) else s; Now() == Removed(r, to).(stat := r.stat[to := Running])
    {
      hide Indexed, Without, MasksOf;
      var from := current;
      current := to;
      if goes {
        InsertThread(from);
      }
      RemoveThread(to);
      stat := stat[to := Running];
    }

    /** rt_thread_yield, and the end of a time slice in rt_tick_increase. */
    method Yield()
      requires Valid()
      modifies this`queues, this`group, this`table, this`stat, this`yielded, this`current
      ensures Valid() && Now() == Yielded(old(Now()))
    {
      hide Indexed, Placed, Scheduled;
      yielded := yielded + {current};
      Schedule();
    }

    /** rt_thread_suspend of the running thread; rt_schedule follows in its caller. */
    method SuspendCurrent() returns (ok: bool)
      requires Valid()
      modifies this`queues, this`group, this`table, this`stat
      ensures Valid() && ok == (old(stat)[old(current)] == Running)
      ensures Now() == if ok then old(Now()).(stat := old(stat)[current := Suspended]) else old(Now())
    {
      hide Indexed, Placed, Without;
      PlacedParts(queues, prio, stat);
      if stat[current] != Ready && stat[current] != Running {
        return false;
      }
      RunningNotQueued(Now());
      StatPlaced(queues, prio, stat, current, Suspended);
      RemoveThread(current);
      stat := stat[current := Suspended];
      return true;
    }

    /** rt_thread_resume, and the way back in _thread_timeout. */
    method Resume(t: Tid) returns (ok: bool)
      requires Valid() && t < |stat|
      modifies this`queues, this`group, this`table, this`stat
      ensures Valid() && ok == (old(stat)[t] == Suspended) && |old(stat)| == |old(prio)| && old(prio)[t] < |old(queues)|
      ensures Now() == if ok then Inserted(old(Now()), t) else old(Now())
      ensures ok && t != current ==> queues == old(queues)[prio[t] := old(queues)[prio[t]] + [t]] && stat == old(stat)[t := Ready]
    {
      hide Indexed, Placed;
      PlacedParts(queues, prio, stat);
      if stat[t] != Suspended {
        return false;
      }
      InsertedGood(Now(), t);
      InsertThread(t);
      return true;
    }

    /** rt_thread_startup, once the scheduler runs. */
    method Startup(t: Tid)
      requires Valid() && t < |stat| && stat[t] == Init && t != current
      modifies this`queues, this`group, this`table, this`stat, this`masks, this`yielded, this`current
      ensures Valid() && |old(stat)| == |old(prio)| && old(prio)[t] < |old(queues)|
      ensures Sane(Inserted(old(Now()), t)) && Now() == Scheduled(Inserted(old(Now()), t))
      ensures Inserted(old(Now()), t) ==
        old(Now()).(stat := old(stat)[t := Ready], queues := old(queues)[old(prio)[t] := old(queues)[old(prio)[t]] + [t]])
    {
      hide Indexed, Placed, Scheduled, Sane;
      PlacedParts(queues, prio, stat);
      InsertedGood(Now(), t);
      StatPlaced(queues, prio, stat, t, Suspended);
      masks := masks[t := MasksOf(prio[t], wide)];
      stat := stat[t := Suspended];
      var resumed := Resume(t);
      assert Now() == Inserted(old(Now()), t);
      Schedule();
    }

    /** RT_THREAD_CTRL_CHANGE_PRIORITY: a READY thread goes to the end of its new queue. */
    method ChangePriority(t: Tid, p: nat)
      requires Valid() && t < |prio| && p < |queues|
      modifies this`queues, this`group, this`table, this`stat, this`prio, this`masks
      ensures Valid() && |old(stat)| == |old(prio)| && old(prio)[t] < |old(queues)|
      ensures var s := old(Now());
        var r := if s.stat[t] == Ready then Removed(s, t) else s;
        Now() == r.(prio := s.prio[t := p], queues := if s.stat[t] == Ready then r.queues[p := r.queues[p] + [t]] else r.queues)
    {
      hide Indexed, Placed, Without;
      PlacedParts(queues, prio, stat);
      if stat[t] == Ready {
        RemovedPlaced(Now(), t, Suspended, p);
        RemoveThread(t);
        prio, masks := prio[t := p], masks[t := MasksOf(p, wide)];
        EnqueuedPlaced(queues, prio, stat[t := Suspended], t);
        assert stat[t := Suspended][t := Ready] == stat[t := Ready] == stat;
        InsertThread(t);
      } else {
        PrioPlaced(queues, prio, stat, t, p);
        prio, masks := prio[t := p], masks[t := MasksOf(p, wide)];
      }
    }

    method EnterCritical()
      requires Valid()
      modifies this`locked
      ensures Valid() && Now() == old(Now()).(locked := old(locked) + 1)
    {
      hide Indexed, Placed;
      locked := locked + 1;
    }

    /** The last exit schedules what has been held back. */
    method ExitCritical()
      requires Valid()
      modifies this`queues, this`group, this`table, this`stat, this`yielded, this`current, this`locked
      ensures Valid()
      ensures old(locked) > 1 ==> Now() == old(Now()).(locked := old(locked) - 1)
      ensures old(locked) <= 1 ==>
                var s := old(Now()).(locked := 0); Sane(s) && Now() == Scheduled(s)
    {
      hide Indexed, Placed, Scheduled, Sane;
      if locked <= 1 {
        locked := 0;
        Schedule();
      } else {
        locked := locked - 1;
      }
    }
  }

  lemma PrioPlaced(queues: seq<seq<Tid>>, prio: seq<nat>, stat: seq<Stat>, t: Tid, p: nat)
    requires Placed(queues, prio, stat) && t < |stat| && stat[t] != Ready && p < |queues|
    ensures Placed(queues, prio[t := p], stat)
  {
    hide NoRepeats;
  }

  lemma NothingReady(queues: seq<seq<Tid>>, wide: bool)
    requires |queues| <= (if wide then 256 else 32) && forall p: nat :: p < |queues| ==> queues[p] == []
    ensures Indexed(Bitmap(0, seq(32, _ => 0)), queues, wide)
  {
    forall k: nat
      ensures !Bit(0, k)
    {
      BitZero(k);
    }
    hide Bit;
  }

  lemma ShorterIndexed(m: Bitmap, queues: seq<seq<Tid>>, wide: bool, p: nat, t: Tid)
    requires Indexed(m, queues, wide) && p < |queues|
    ensures Without(queues[p], t) != [] ==> Indexed(m, queues[p := Without(queues[p], t)], wide)
  {
    hide Indexed;
    if Without(queues[p], t) != [] {
      assert queues[p] != [];
      SameIndexed(m, queues, wide, p, Without(queues[p], t));
    }
  }

  lemma RunningNotQueued(s: State)
    requires Good(s)
    ensures s.current < |s.prio| && s.prio[s.current] < |s.queues|
    ensures Without(s.queues[s.prio[s.current]], s.current) == s.queues[s.prio[s.current]]
    ensures Removed(s, s.current) == s
  {
    GoodSane(s);
    PlacedAt(s, s.prio[s.current], s.current);
    hide Placed;
  }
}
