/** Event objects (src/ipc.c:1440-1529, 1565-1685, 1704-1734): 32 bits, and threads that wait for all or for any of
    some bits. A word is the set of its bits, so & is intersection, | is union and & ~ is difference. */
module Event {
  import opened Lists
  import opened Waiting

  type Bits = set<nat>

  /** RT_EVENT_FLAG_AND, RT_EVENT_FLAG_OR and RT_EVENT_FLAG_CLEAR. */
  datatype Flags = Flags(all: bool, any: bool, clear: bool)

  /** event_set and event_info of a thread. */
  datatype Info = Info(bits: Bits, option: Flags)

  predicate Legal(option: Flags) {
    option.all || option.any
  }

  /** All the bits if the AND flag is given, whether or not OR is given as well; otherwise any of them. */
  predicate Satisfied(i: Info, event: Bits) {
    if i.option.all then i.bits * event == i.bits else i.option.any && i.bits * event != {}
  }

  lemma FewerBits(i: Info, event: Bits, fewer: Bits)
    requires fewer <= event && !Satisfied(i, event)
    ensures !Satisfied(i, fewer)
  {
    assert i.bits * fewer == i.bits ==> i.bits * event == i.bits;
    assert i.bits * fewer <= i.bits * event;
  }

  /** The bits a waiter gets: what it asked for, or for OR what there is of it. */
  function Got(i: Info, event: Bits): Bits {
    if i.option.all then i.bits else i.bits * event
  }

  function Cleared(i: Info, event: Bits): Bits {
    if i.option.clear then event - Got(i, event) else event
  }

  /** What one send delivers: a pass over the waiters from the front, in which each takes its bits before the next one
      is looked at. */
  datatype Pass = Pass(kept: seq<Tid>, woken: seq<Tid>, info: map<Tid, Info>, event: Bits)

  function Deliver(wait: seq<Tid>, info: map<Tid, Info>, event: Bits): Pass {
    if wait == [] then Pass([], [], info, event)
    else
      var t := wait[0];
      if t in info && Satisfied(info[t], event) then
        var p := Deliver(wait[1..], info[t := info[t].(bits := Got(info[t], event))], Cleared(info[t], event));
        p.(woken := [t] + p.woken)
      else
        var p := Deliver(wait[1..], info, event);
        p.(kept := [t] + p.kept)
  }

  /** Every waiter has asked for something, for all of it or for any of it. */
  ghost predicate Asking(wait: seq<Tid>, info: map<Tid, Info>) {
    forall t :: t in wait ==> t in info && info[t].bits != {} && Legal(info[t].option)
  }

  /** No waiter that is still suspended could go on. */
  ghost predicate Unsatisfied(wait: seq<Tid>, info: map<Tid, Info>, event: Bits) {
    forall t :: t in wait ==> t in info && !Satisfied(info[t], event)
  }

  /** A pass splits the waiters in two, changes nothing of what the others asked for, and leaves no more bits than it
      found. */
  lemma {:induction false} DeliverSplits(wait: seq<Tid>, info: map<Tid, Info>, event: Bits)
    requires NoRepeats(wait) && Asking(wait, info)
    ensures var p := Deliver(wait, info, event);
      && NoRepeats(p.kept) && NoRepeats(p.woken)
      && (forall t :: t in wait <==> t in p.kept || t in p.woken) && (forall t :: t in p.kept ==> t !in p.woken)
      && p.info.Keys == info.Keys && (forall t :: t in info && t !in p.woken ==> p.info[t] == info[t])
      && (forall t :: t in p.woken ==> t in info && p.info[t].option == info[t].option && p.info[t].bits <= info[t].bits)
      && p.event <= event
  {
    hide Satisfied, Legal;
    if wait != [] {
      var t, rest := wait[0], wait[1..];
      WithoutFirst(wait);
      assert wait == [t] + rest;
      if Satisfied(info[t], event) {
        var info1 := info[t := info[t].(bits := Got(info[t], event))];
        DeliverSplits(rest, info1, Cleared(info[t], event));
        var p := Deliver(rest, info1, Cleared(info[t], event));
        PrependNoRepeats(t, p.woken);
      } else {
        DeliverSplits(rest, info, event);
        var p := Deliver(rest, info, event);
        PrependNoRepeats(t, p.kept);
      }
    }
  }

  /** After a pass no waiter that is left is satisfied by the bits that are left. */
  lemma {:induction false} DeliverLeavesNone(wait: seq<Tid>, info: map<Tid, Info>, event: Bits)
    requires NoRepeats(wait) && Asking(wait, info)
    ensures var p := Deliver(wait, info, event); Unsatisfied(p.kept, p.info, p.event)
  {
    hide Satisfied, Legal;
    if wait != [] {
      var t, rest := wait[0], wait[1..];
      WithoutFirst(wait);
      assert wait == [t] + rest;
      if Satisfied(info[t], event) {
        var info1 := info[t := info[t].(bits := Got(info[t], event))];
        DeliverLeavesNone(rest, info1, Cleared(info[t], event));
      } else {
        DeliverLeavesNone(rest, info, event);
        DeliverSplits(rest, info, event);
        var p := Deliver(rest, info, event);
        FewerBits(info[t], event, p.event);
      }
    }
  }

  /** Bits cleared for one waiter are not delivered to another further back. */
  ghost predicate Apart(woken: seq<Tid>, info: map<Tid, Info>) {
    (forall i :: 0 <= i < |woken| ==> woken[i] in info)
    && forall i, j :: 0 <= i < j < |woken| && info[woken[i]].option.clear ==> info[woken[i]].bits !! info[woken[j]].bits
  }

  /** Whoever is woken gets bits, out of those that were there when the send began, and never a bit that was cleared for
      a thread in front. */
  lemma {:induction false} DeliverOnce(wait: seq<Tid>, info: map<Tid, Info>, event: Bits)
    requires NoRepeats(wait) && Asking(wait, info)
    ensures var p := Deliver(wait, info, event);
      Apart(p.woken, p.info) && forall t :: t in p.woken ==> t in p.info && {} < p.info[t].bits <= event
  {
    hide Satisfied, Legal;
    if wait != [] {
      var t, rest := wait[0], wait[1..];
      WithoutFirst(wait);
      assert wait == [t] + rest;
      if Satisfied(info[t], event) {
        var event1 := Cleared(info[t], event);
        var info1 := info[t := info[t].(bits := Got(info[t], event))];
        DeliverOnce(rest, info1, event1);
        DeliverSplits(rest, info1, event1);
        GotSome(info[t], event);
        var p := Deliver(rest, info1, event1);
        OneMore(t, p.woken, p.info, event1);
      } else {
        DeliverOnce(rest, info, event);
      }
    }
  }

  lemma GotSome(i: Info, event: Bits)
    requires Satisfied(i, event) && i.bits != {}
    ensures {} < Got(i, event) <= event && (i.option.clear ==> Got(i, event) !! Cleared(i, event))
  {
  }

  lemma OneMore(t: Tid, woken: seq<Tid>, info: map<Tid, Info>, event1: Bits)
    requires t in info && Apart(woken, info)
    requires forall x :: x in woken ==> x in info && info[x].bits <= event1
    requires info[t].option.clear ==> info[t].bits !! event1
    ensures Apart([t] + woken, info)
  {
    var r := [t] + woken;
    assert forall i :: 0 < i < |r| ==> r[i] == woken[i - 1] && r[i] in woken;
  }

  /** Every waiter the pass leaves behind was not satisfied when its turn came, so a waiter that all bits of the send
      satisfy, with nobody in front who clears, is woken. */
  lemma {:induction false} DeliverReaches(wait: seq<Tid>, info: map<Tid, Info>, event: Bits)
    requires NoRepeats(wait) && Asking(wait, info)
    requires forall t :: t in wait ==> !info[t].option.clear
    ensures var p := Deliver(wait, info, event);
            p.event == event && forall t :: t in wait ==> (t in p.woken <==> Satisfied(info[t], event))
  {
    hide Satisfied, Legal;
    if wait != [] {
      var t, rest := wait[0], wait[1..];
      WithoutFirst(wait);
      assert wait == [t] + rest;
      if Satisfied(info[t], event) {
        var info1 := info[t := info[t].(bits := Got(info[t], event))];
        DeliverReaches(rest, info1, event);
      } else {
        DeliverReaches(rest, info, event);
        DeliverSplits(rest, info, event);
      }
    }
  }

  // ---------------------------------------------------------------- who gets what, bit by bit

  /** The bits that the first i waiters of a list have taken away, in a pass after which they have what info says. */
  ghost function TakenAhead(wait: seq<Tid>, i: nat, woken: seq<Tid>, info: map<Tid, Info>): Bits
    requires i <= |wait|
  {
    if i == 0 then {} else TakenAhead(wait, i - 1, woken, info) + TakenBy(wait[i - 1], woken, info)
  }

  ghost function TakenBy(t: Tid, woken: seq<Tid>, info: map<Tid, Info>): Bits {
    if t in woken && t in info && info[t].option.clear then info[t].bits else {}
  }

  /** What those who went on have not taken away stays set. */
  lemma {:induction false} DeliverLeaves(wait: seq<Tid>, info: map<Tid, Info>, event: Bits)
    requires NoRepeats(wait) && Asking(wait, info)
    ensures var p := Deliver(wait, info, event); p.event == event - TakenAhead(wait, |wait|, p.woken, p.info)
    decreases |wait|
  {
    hide NoRepeats, Satisfied, Got, Cleared, Legal, TakenBy, TakenAhead;
    if wait == [] {
      NoneAhead(wait, Deliver(wait, info, event));
    } else {
      var t, rest := wait[0], wait[1..];
      var q := PassFirst(wait, info, event);
      var p := Deliver(wait, info, event);
      DeliverLeaves(rest, if t in p.woken then info[t := p.info[t]] else info, event - TakenBy(t, p.woken, p.info));
      AheadMore(wait, |rest|, q.woken, p.woken, p.info);
    }
  }

  lemma NoneAhead(wait: seq<Tid>, p: Pass)
    ensures TakenAhead(wait, 0, p.woken, p.info) == {}
  {
  }

  /** A pass is its first waiter's turn and the pass over the rest with the bits that are left. */
  lemma PassFirst(wait: seq<Tid>, info: map<Tid, Info>, event: Bits) returns (q: Pass)
    requires NoRepeats(wait) && Asking(wait, info) && wait != []
    ensures var t, rest, p := wait[0], wait[1..], Deliver(wait, info, event);
      && t in info && t in p.info && t !in rest && NoRepeats(rest)
      && (t in p.woken <==> Satisfied(info[t], event))
      && (t in p.woken ==> p.info[t] == info[t].(bits := Got(info[t], event)))
      && var info1 := if t in p.woken then info[t := p.info[t]] else info;
         && Asking(rest, info1) && q == Deliver(rest, info1, event - TakenBy(t, p.woken, p.info))
         && p.info == q.info && p.event == q.event && p.woken == (if t in p.woken then [t] + q.woken else q.woken)
         && forall x :: x in rest ==> (x in p.woken <==> x in q.woken) && info1[x] == info[x]
  {
    hide NoRepeats, Satisfied, Got, Legal;
    var t, rest := wait[0], wait[1..];
    WithoutFirst(wait);
    DeliverSplits(wait, info, event);
    FirstExact(info[t], event);
    if Satisfied(info[t], event) {
      var info1 := info[t := info[t].(bits := Got(info[t], event))];
      q := Deliver(rest, info1, Cleared(info[t], event));
      DeliverSplits(rest, info1, Cleared(info[t], event));
      ghost var p := Deliver(wait, info, event);
      assert p.info[t] == info1[t] && t in p.woken;
      assert event - {} == event && Cleared(info[t], event) == event - TakenBy(t, p.woken, p.info);
    } else {
      q := Deliver(rest, info, event);
      DeliverSplits(rest, info, event);
      assert event - {} == event;
    }
  }

  /** What a pass does for each waiter, in terms of bits: it goes on if and only if, of the bits that those in front of it
      have left, all that it asked for are set, or with OR alone any is; it gets what it asked for, or what there is of
      it. */
  lemma {:induction false} DeliverExact(wait: seq<Tid>, info: map<Tid, Info>, event: Bits, i: nat)
    requires NoRepeats(wait) && Asking(wait, info) && i < |wait|
    ensures var p, t := Deliver(wait, info, event), wait[i];
      var left := event - TakenAhead(wait, i, p.woken, p.info);
      && t in info && t in p.info
      && (t in p.woken <==> if info[t].option.all then forall b :: b in info[t].bits ==> b in left
                            else exists b :: b in info[t].bits && b in left)
      && (t in p.woken ==> forall b :: b in p.info[t].bits <==> b in info[t].bits && b in left)
    decreases i
  {
    hide NoRepeats, Satisfied, Got, Cleared, Legal, TakenBy, TakenAhead, Deliver;
    var t, rest := wait[0], wait[1..];
    var q := PassFirst(wait, info, event);
    var p := Deliver(wait, info, event);
    if i == 0 {
      NoneAhead(wait, p);
      assert event - {} == event;
      AskedFor(wait, info, t);
      FirstExact(info[t], event);
    } else {
      var event1 := event - TakenBy(t, p.woken, p.info);
      DeliverExact(rest, if t in p.woken then info[t := p.info[t]] else info, event1, i - 1);
      AheadMore(wait, i - 1, q.woken, p.woken, p.info);
      assert rest[i - 1] == wait[i] && rest[i - 1] in rest;
      assert event1 - TakenAhead(rest, i - 1, q.woken, q.info) == event - TakenAhead(wait, i, p.woken, p.info);
    }
  }

  /** So a waiter that goes on has got bits that were set, all that it asked for if it asked for all; and for one that stays
      one of its bits is missing in the end, or with OR alone every one. */
  lemma DeliverMeans(wait: seq<Tid>, info: map<Tid, Info>, event: Bits, t: Tid)
    requires NoRepeats(wait) && Asking(wait, info) && t in wait
    ensures var p := Deliver(wait, info, event);
      && t in info && t in p.info
      && (t in p.woken ==>
            && (forall b :: b in p.info[t].bits ==> b in info[t].bits && b in event) && (exists b :: b in p.info[t].bits)
            && (info[t].option.all ==> p.info[t].bits == info[t].bits))
      && (t !in p.woken ==> if info[t].option.all then exists b :: b in info[t].bits && b !in p.event
                            else forall b :: b in info[t].bits ==> b !in p.event)
  {
    hide NoRepeats, Satisfied, Legal, Deliver, TakenAhead;
    var p := Deliver(wait, info, event);
    var i :| 0 <= i < |wait| && wait[i] == t;
    DeliverExact(wait, info, event, i);
    DeliverSplits(wait, info, event);
    DeliverLeavesNone(wait, info, event);
    AskedFor(wait, info, t);
    FirstExact(info[t], p.event);
    var asked: nat :| asked in info[t].bits;
    if t in p.woken && info[t].option.all {
      assert asked in p.info[t].bits;
    }
  }

  lemma AskedFor(wait: seq<Tid>, info: map<Tid, Info>, t: Tid)
    requires Asking(wait, info) && t in wait
    ensures t in info && info[t].bits != {} && Legal(info[t].option)
  {
  }

  lemma FirstExact(i: Info, event: Bits)
    requires i.bits != {} && Legal(i.option)
    ensures Satisfied(i, event) <==> if i.option.all then forall b :: b in i.bits ==> b in event else exists b :: b in i.bits && b in event
    ensures Satisfied(i, event) ==> forall b :: b in Got(i, event) <==> b in i.bits && b in event
    ensures Cleared(i, event) == if i.option.clear then event - Got(i, event) else event
  {
    if i.bits * event != {} {
      var b :| b in i.bits * event;
      assert b in i.bits && b in event;
    }
    if b :| b in i.bits && b in event {
      assert b in i.bits * event;
    }
    if i.option.all && Satisfied(i, event) {
      assert forall b :: b in i.bits ==> b in i.bits * event;
    }
  }

  lemma {:induction false} AheadMore(wait: seq<Tid>, i: nat, fewer: seq<Tid>, woken: seq<Tid>, info: map<Tid, Info>)
    requires wait != [] && i < |wait| && wait[0] !in wait[1..] && (woken == fewer || woken == [wait[0]] + fewer)
    ensures TakenAhead(wait, i + 1, woken, info) == TakenBy(wait[0], woken, info) + TakenAhead(wait[1..], i, fewer, info)
  {
    if i > 0 {
      AheadMore(wait, i - 1, fewer, woken, info);
      assert wait[i] == wait[1..][i - 1] && wait[i] in wait[1..];
    }
  }

  // ---------------------------------------------------------------- the event object

  ghost predicate Inv(wait: seq<Tid>, info: map<Tid, Info>, event: Bits) {
    NoRepeats(wait) && Asking(wait, info) && Unsatisfied(wait, info, event)
  }

  lemma SendKeeps(wait: seq<Tid>, info: map<Tid, Info>, event: Bits)
    requires NoRepeats(wait) && Asking(wait, info)
    ensures var p := Deliver(wait, info, event); Inv(p.kept, p.info, p.event)
  {
    DeliverSplits(wait, info, event);
    DeliverLeavesNone(wait, info, event);
    hide Deliver, NoRepeats, Satisfied, Legal;
  }

  lemma ReceiveKeeps(wait: seq<Tid>, info: map<Tid, Info>, event: Bits, t: Tid, i: Info, fewer: Bits)
    requires Inv(wait, info, event) && t !in wait && fewer <= event
    ensures Inv(wait, info[t := i], fewer)
  {
    hide NoRepeats, Satisfied, Legal;
    forall x | x in wait
      ensures !Satisfied(info[x], fewer)
    {
      FewerBits(info[x], event, fewer);
    }
  }

  lemma SuspendKeeps(wait: seq<Tid>, info: map<Tid, Info>, event: Bits, t: Tid, i: Info, k: nat)
    requires Inv(wait, info, event) && t !in wait && k <= |wait|
    requires i.bits != {} && Legal(i.option) && !Satisfied(i, event)
    ensures Inv(InsertAt(wait, k, t), info[t := i], event)
  {
    InsertAtKeeps(wait, k, t);
    InsertAtPoints(wait, k, t);
    hide NoRepeats, Satisfied, Legal, InsertAt;
  }

  lemma TimeOutKeeps(wait: seq<Tid>, info: map<Tid, Info>, event: Bits, t: Tid)
    requires Inv(wait, info, event)
    ensures Inv(Without(wait, t), info, event)
  {
    WithoutKeeps(wait, t);
    hide NoRepeats, Satisfied, Legal, Without;
  }

  datatype Outcome = Received(bits: Bits) | TimedOut | Suspended | Refused

  class EventObject {
    const flag: Flag
    var event: Bits                     // set
    var wait: seq<Tid>                  // suspend_thread
    var info: map<Tid, Info>            // event_set and event_info of the threads

    /** In every reachable state no suspended thread could go on. */
    ghost predicate Valid()
      reads this
    {
      Inv(wait, info, event)
    }

    constructor (flag: Flag)
      ensures Valid() && event == {} && wait == [] && this.flag == flag
    {
      this.flag := flag;
      event, wait, info := {}, [], map[];
    }

    /** rt_event_send; the branch that returns -RT_EINVAL is not reached, for every waiter has a legal option. */
    method Send(bits: Bits) returns (ok: bool, woken: seq<Tid>)
      requires Valid()
      modifies this`event, this`wait, this`info
      ensures Valid() && ok == (bits != {})
      ensures ok ==> var p := Deliver(old(wait), old(info), old(event) + bits);
                     wait == p.kept && woken == p.woken && info == p.info && event == p.event
      ensures !ok ==> wait == old(wait) && info == old(info) && event == old(event)
      ensures ok ==> forall t :: t in old(wait) ==>
        && t in old(info) && t in info
        && (t in woken ==>
              && (forall b :: b in info[t].bits ==> b in old(info)[t].bits && (b in old(event) || b in bits))
              && (exists b :: b in info[t].bits) && (old(info)[t].option.all ==> info[t].bits == old(info)[t].bits))
        && (t !in woken ==> if old(info)[t].option.all then exists b :: b in old(info)[t].bits && b !in event
                            else forall b :: b in old(info)[t].bits ==> b !in event)
    {
      hide NoRepeats, Satisfied, Got, Cleared, Unsatisfied, Deliver, Under;
      woken := [];
      if bits == {} {
        return false, woken;
      }
      event := event + bits;
      ghost var p := Deliver(wait, info, event);
      SendKeeps(wait, info, event);
      PassStarts(p);
      var n := 0;
      ghost var rest, kept := wait, [];
      while n < |wait|
        modifies this`event, this`wait, this`info
        invariant wait == kept + rest && n == |kept|
        invariant forall t :: t in rest ==> t in info && Legal(info[t].option)
        invariant NoRepeats(rest)
        invariant Under(p, kept, woken, Deliver(rest, info, event))
        decreases |rest|
      {
        WithoutFirst(rest);
        NodeAt(kept, rest);
        var t := wait[n];
        var i := info[t];
        if !i.option.all && !i.option.any {
          return false, woken;
        }
        ghost var was := Deliver(rest, info, event);
        DeliverFirst(rest, info, event);
        if Satisfied(i, event) {
          info := info[t := i.(bits := Got(i, event))];
          event := Cleared(i, event);
          wait := wait[..n] + wait[n + 1..];
          Woke(p, kept, woken, was, Deliver(rest[1..], info, event), t);
          woken := woken + [t];
        } else {
          Kept(p, kept, woken, was, Deliver(rest[1..], info, event), t);
          kept := kept + [t];
          n := n + 1;
        }
        rest := rest[1..];
      }
      assert wait == kept && rest == [];
      PassEnds(p, wait, woken, info, event);
      forall t | t in old(wait)
        ensures t in old(info) && t in info
        ensures t in woken ==>
          && (forall b :: b in info[t].bits ==> b in old(info)[t].bits && (b in old(event) || b in bits))
          && (exists b :: b in info[t].bits) && (old(info)[t].option.all ==> info[t].bits == old(info)[t].bits)
        ensures t !in woken ==> if old(info)[t].option.all then exists b :: b in old(info)[t].bits && b !in event
                                else forall b :: b in old(info)[t].bits ==> b !in event
      {
        DeliverMeans(old(wait), old(info), old(event) + bits, t);
      }
      return true, woken;
    }

    /** rt_event_recv up to the point where the thread has its bits, has failed or is suspended. */
    method Receive(t: Tid, bits: Bits, option: Flags, timeout: int, prio: Tid -> nat) returns (o: Outcome)
      requires Valid() && t !in wait && Legal(option)
      modifies this`event, this`wait, this`info
      ensures Valid()
      ensures o == if bits == {} then Refused
                   else if Satisfied(Info(bits, option), old(event)) then Received(old(event) * bits)
                   else if timeout == 0 then TimedOut else Suspended
      ensures o.Received? <==> bits != {} && if option.all then forall b :: b in bits ==> b in old(event)
                                             else exists b :: b in bits && b in old(event)
      ensures o.Received? ==> forall b :: b in o.bits <==> b in bits && b in old(event)
      ensures o.Received? ==> forall b :: b in event <==> b in old(event) && !(option.clear && b in bits)
      ensures match o
              case Received(got) =>
                wait == old(wait) && info == old(info)[t := Info(got, option)]
                && event == if option.clear then old(event) - bits else old(event)
              case Suspended =>
                wait == InsertAt(old(wait), Place(old(wait), t, flag, prio), t)
                && info == old(info)[t := Info(bits, option)] && event == old(event)
              case _ => wait == old(wait) && info == old(info) && event == old(event)
    {
      hide Inv, InsertAt, Place;
      if bits == {} {
        return Refused;
      }
      FirstExact(Info(bits, option), event);
      var satisfied := if option.all then event * bits == bits else event * bits != {};
      assert satisfied <==> Satisfied(Info(bits, option), event) by {
        assert event * bits == bits * event;
      }
      if satisfied {
        o := Received(event * bits);
        ReceiveKeeps(wait, info, event, t, Info(event * bits, option), if option.clear then event - bits else event);
        info := info[t := Info(event * bits, option)];
        if option.clear {
          event := event - bits;
        }
      } else if timeout == 0 {
        o := TimedOut;
      } else {
        SuspendKeeps(wait, info, event, t, Info(bits, option), Place(wait, t, flag, prio));
        info := info[t := Info(bits, option)];
        var r, k := Suspend(wait, t, flag, prio);
        wait := r;
        o := Suspended;
      }
    }

    method TimeOutThread(t: Tid)
      requires Valid() && t in wait
      modifies this`wait
      ensures Valid() && wait == Without(old(wait), t)
    {
      hide Inv;
      TimeOutKeeps(wait, info, event, t);
      wait := Without(wait, t);
    }

    /** RT_IPC_CMD_RESET. */
    method Reset()
      requires Valid()
      modifies this`wait, this`event
      ensures Valid() && wait == [] && event == {}
    {
      wait, event := [], {};
    }
  }

  /** How far a send has come: what it has kept and woken, and the pass over the rest, make up the whole pass. */
  ghost predicate Under(p: Pass, kept: seq<Tid>, woken: seq<Tid>, rest: Pass) {
    p.kept == kept + rest.kept && p.woken == woken + rest.woken && p.info == rest.info && p.event == rest.event
  }

  /** The node after the kept ones: taking it out, or going past it. */
  lemma NodeAt(kept: seq<Tid>, rest: seq<Tid>)
    requires rest != []
    ensures var wait, n := kept + rest, |kept|;
      && wait[n] == rest[0] && wait[..n] + wait[n + 1..] == kept + rest[1..] && wait == (kept + [rest[0]]) + rest[1..]
    ensures forall t :: t in rest <==> t == rest[0] || t in rest[1..]
  {
    assert rest == [rest[0]] + rest[1..];
  }

  lemma PassStarts(p: Pass)
    ensures Under(p, [], [], p)
  {
  }

  lemma PassEnds(p: Pass, kept: seq<Tid>, woken: seq<Tid>, info: map<Tid, Info>, event: Bits)
    requires Under(p, kept, woken, Deliver([], info, event))
    ensures p == Pass(kept, woken, info, event)
  {
  }

  lemma DeliverFirst(wait: seq<Tid>, info: map<Tid, Info>, event: Bits)
    requires wait != [] && wait[0] in info
    ensures var t := wait[0];
      Deliver(wait, info, event) ==
      if Satisfied(info[t], event) then
        var p := Deliver(wait[1..], info[t := info[t].(bits := Got(info[t], event))], Cleared(info[t], event));
        p.(woken := [t] + p.woken)
      else
        var p := Deliver(wait[1..], info, event);
        p.(kept := [t] + p.kept)
  {
  }

  lemma Woke(p: Pass, kept: seq<Tid>, woken: seq<Tid>, rest: Pass, rest1: Pass, t: Tid)
    requires Under(p, kept, woken, rest) && rest == rest1.(woken := [t] + rest1.woken)
    ensures Under(p, kept, woken + [t], rest1)
  {
  }

  lemma Kept(p: Pass, kept: seq<Tid>, woken: seq<Tid>, rest: Pass, rest1: Pass, t: Tid)
    requires Under(p, kept, woken, rest) && rest == rest1.(kept := [t] + rest1.kept)
    ensures Under(p, kept + [t], woken, rest1)
  {
  }
}
