/** The list of threads suspended on an IPC object (src/ipc.c:122-250), and the accounting that says no wakeup is
    lost while threads wait for something that is counted. */
module Waiting {
  import opened Basics
  import opened Lists

  type Tid = nat

  /** RT_IPC_FLAG_FIFO and RT_IPC_FLAG_PRIO. */
  datatype Flag = Fifo | Prio

  /** The first place whose thread is less urgent than p; a smaller number is more urgent. */
  function PrioPlace(q: seq<Tid>, prio: Tid -> nat, p: nat): (k: nat)
    ensures k <= |q|
    ensures forall i :: 0 <= i < k ==> prio(q[i]) <= p
    ensures k < |q| ==> p < prio(q[k])
  {
    if q == [] || p < prio(q[0]) then 0 else 1 + PrioPlace(q[1..], prio, p)
  }

  function Place(q: seq<Tid>, t: Tid, flag: Flag, prio: Tid -> nat): (k: nat)
    ensures k <= |q|
  {
    if flag.Fifo? then |q| else PrioPlace(q, prio, prio(t))
  }

  ghost predicate InOrder(q: seq<Tid>, prio: Tid -> nat) {
    forall i, j :: 0 <= i < j < |q| ==> prio(q[i]) <= prio(q[j])
  }

  /** In a list kept by priority the newcomer goes behind everyone at least as urgent and in front of everyone less
      urgent, so the list stays in order and equal priorities stay in order of arrival. */
  lemma PrioKeepsOrder(q: seq<Tid>, t: Tid, prio: Tid -> nat)
    requires InOrder(q, prio)
    ensures var k := Place(q, t, Prio, prio);
      && InOrder(InsertAt(q, k, t), prio)
      && (forall x :: x in q[..k] ==> prio(x) <= prio(t)) && (forall x :: x in q[k..] ==> prio(t) < prio(x))
  {
    var k := Place(q, t, Prio, prio);
    assert forall i :: k <= i < |q| ==> prio(q[k]) <= prio(q[i]);
    InsertAtPoints(q, k, t);
    hide InsertAt;
    var r := InsertAt(q, k, t);
    forall i, j | 0 <= i < j < |r|
      ensures prio(r[i]) <= prio(r[j])
    {
      var i', j' := if i < k then i else i - 1, if j < k then j else j - 1;
      assert i != k ==> r[i] == q[i'];
      assert j != k ==> r[j] == q[j'];
    }
  }

  /** _ipc_list_suspend. */
  method Suspend(q: seq<Tid>, t: Tid, flag: Flag, prio: Tid -> nat) returns (r: seq<Tid>, k: nat)
    ensures k == Place(q, t, flag, prio) && r == InsertAt(q, k, t)
  {
    hide InsertAt;
    if flag.Fifo? {
      k := |q|;
    } else {
      k := 0;
      while k < |q|
        invariant k <= PrioPlace(q, prio, prio(t))
      {
        if prio(t) < prio(q[k]) {
          break;
        }
        k := k + 1;
      }
    }
    r := InsertAt(q, k, t);
  }

  lemma {:induction false} WithoutOrder(q: seq<Tid>, t: Tid, prio: Tid -> nat)
    requires InOrder(q, prio)
    ensures InOrder(Without(q, t), prio)
  {
    if q != [] {
      WithoutOrder(q[1..], t, prio);
      var r := Without(q[1..], t);
      assert forall x :: x in r ==> x in q[1..];
      assert forall x :: x in q[1..] ==> prio(q[0]) <= prio(x);
    }
  }

  // ---------------------------------------------------------------- no wakeup is lost

  /** As long as anyone waits, there are at least as many threads woken and not yet back as there are things to be
      had. Woken threads come back to look again, so no thread sleeps on while something is there for it. */
  ghost predicate Served(wait: seq<Tid>, woken: set<Tid>, avail: nat) {
    NoRepeats(wait) && (forall x :: x in wait ==> x !in woken) && (wait != [] ==> |woken| >= avail)
  }

  function Rest(wait: seq<Tid>): seq<Tid> {
    if wait == [] then [] else wait[1..]
  }

  function WokenToo(wait: seq<Tid>, woken: set<Tid>): set<Tid> {
    if wait == [] then woken else woken + {wait[0]}
  }

  /** One more is there and the first thread is woken for it. */
  lemma WakeOne(wait: seq<Tid>, woken: set<Tid>, avail: nat)
    requires Served(wait, woken, avail)
    ensures Served(Rest(wait), WokenToo(wait, woken), avail + 1)
  {
    if wait != [] {
      WithoutFirst(wait);
      assert forall x :: x in wait[1..] ==> x in wait;
    }
  }

  /** A thread takes one: a woken thread, or one that was never suspended. */
  lemma TakeOne(wait: seq<Tid>, woken: set<Tid>, avail: nat, t: Tid)
    requires Served(wait, woken, avail) && avail > 0
    ensures Served(wait, woken - {t}, avail - 1)
  {
    if t in woken {
      assert woken == (woken - {t}) + {t};
    } else {
      assert woken - {t} == woken;
    }
  }

  /** A thread finds nothing and suspends, maybe once more. */
  lemma JoinWait(wait: seq<Tid>, woken: set<Tid>, t: Tid, k: nat)
    requires Served(wait, woken, 0) && t !in wait && k <= |wait|
    ensures Served(InsertAt(wait, k, t), woken - {t}, 0)
  {
    InsertAtKeeps(wait, k, t);
    InsertAtPoints(wait, k, t);
  }

  /** A thread finds nothing and gives up. */
  lemma GiveUp(wait: seq<Tid>, woken: set<Tid>, t: Tid)
    requires Served(wait, woken, 0)
    ensures Served(wait, woken - {t}, 0)
  {
  }

  /** A suspended thread runs out of time. */
  lemma TimeOut(wait: seq<Tid>, woken: set<Tid>, avail: nat, t: Tid)
    requires Served(wait, woken, avail)
    ensures Served(Without(wait, t), woken, avail)
  {
    WithoutKeeps(wait, t);
  }

  /** Once every woken thread has come back, nobody waits while something is there. */
  lemma NoSleeper(wait: seq<Tid>, woken: set<Tid>, avail: nat)
    requires Served(wait, woken, avail) && woken == {}
    ensures wait == [] || avail == 0
  {
  }

  // ---------------------------------------------------------------- who is woken

  /** Threads that suspend one after the other. */
  function Joined(q: seq<Tid>, ts: seq<Tid>, flag: Flag, prio: Tid -> nat): seq<Tid>
    decreases |ts|
  {
    if ts == [] then q else Joined(InsertAt(q, Place(q, ts[0], flag, prio), ts[0]), ts[1..], flag, prio)
  }

  /** A wakeup takes one thread off the list: there is no less urgent one in it if it is kept by priority. */
  lemma WokenIs(q: seq<Tid>, woken: set<Tid>, prio: Tid -> nat)
    requires q != []
    ensures [q[0]] + Rest(q) == q && WokenToo(q, woken) == woken + {q[0]}
    ensures InOrder(q, prio) ==> forall t :: t in q ==> prio(q[0]) <= prio(t)
  {
  }

  /** Without priorities, threads are woken in the order in which they suspended. */
  lemma {:induction false} FifoOrder(q: seq<Tid>, ts: seq<Tid>, prio: Tid -> nat)
    ensures Joined(q, ts, Fifo, prio) == q + ts
    decreases |ts|
  {
    if ts == [] {
      assert q + [] == q;
    } else {
      assert InsertAt(q, |q|, ts[0]) == q + [ts[0]];
      FifoOrder(q + [ts[0]], ts[1..], prio);
      assert q + [ts[0]] + ts[1..] == q + ts;
    }
  }

  /** With priorities, in order of priority, and among equals in the order in which they suspended. */
  lemma {:induction false} PrioOrder(q: seq<Tid>, ts: seq<Tid>, prio: Tid -> nat, p: nat)
    requires InOrder(q, prio)
    ensures InOrder(Joined(q, ts, Prio, prio), prio)
    ensures Equals(Joined(q, ts, Prio, prio), prio, p) == Equals(q, prio, p) + Equals(ts, prio, p)
    decreases |ts|
  {
    hide InsertAt, Place, InOrder, Equals;
    if ts == [] {
      EqualsNone(ts, prio, p);
      assert Equals(q, prio, p) + [] == Equals(q, prio, p);
    } else {
      var t, rest := ts[0], ts[1..];
      var q' := InsertAt(q, Place(q, t, Prio, prio), t);
      PrioKeepsOrder(q, t, prio);
      EqualsInsert(q, t, prio, p);
      PrioOrder(q', rest, prio, p);
      EqualsJoin([t], rest, prio, p);
      assert ts == [t] + rest;
      assert Equals(q, prio, p) + Equals([t], prio, p) + Equals(rest, prio, p) == Equals(q, prio, p) + Equals(ts, prio, p);
    }
  }

  lemma EqualsInsert(q: seq<Tid>, t: Tid, prio: Tid -> nat, p: nat)
    requires InOrder(q, prio)
    ensures Equals(InsertAt(q, Place(q, t, Prio, prio), t), prio, p) == Equals(q, prio, p) + Equals([t], prio, p)
  {
    hide InOrder, Place;
    PrioKeepsOrder(q, t, prio);
    var k := Place(q, t, Prio, prio);
    var a, b := q[..k], q[k..];
    assert q == a + b && InsertAt(q, k, t) == a + [t] + b;
    EqualsJoin(a, b, prio, p);
    EqualsJoin(a, [t], prio, p);
    EqualsJoin(a + [t], b, prio, p);
    if prio(t) == p {
      EqualsNone(b, prio, p);
    } else {
      EqualsNone([t], prio, p);
    }
    assert Equals(a, prio, p) + [] == Equals(a, prio, p);
    assert Equals(q, prio, p) + [] == Equals(q, prio, p);
  }

  /** The threads of one priority. */
  function Equals(q: seq<Tid>, prio: Tid -> nat, p: nat): seq<Tid> {
    if q == [] then [] else (if prio(q[0]) == p then [q[0]] else []) + Equals(q[1..], prio, p)
  }

  lemma FirstEqual(q: seq<Tid>, prio: Tid -> nat, p: nat)
    requires q != []
    ensures Equals(q, prio, p) == (if prio(q[0]) == p then [q[0]] else []) + Equals(q[1..], prio, p)
  {
  }

  lemma {:induction false} EqualsJoin(a: seq<Tid>, b: seq<Tid>, prio: Tid -> nat, p: nat)
    ensures Equals(a + b, prio, p) == Equals(a, prio, p) + Equals(b, prio, p)
  {
    hide Equals;
    if a == [] {
      EqualsNone(a, prio, p);
      assert a + b == b && [] + Equals(b, prio, p) == Equals(b, prio, p);
    } else {
      EqualsJoin(a[1..], b, prio, p);
      var c := a + b;
      assert c[0] == a[0] && c[1..] == a[1..] + b;
      FirstEqual(c, prio, p);
      FirstEqual(a, prio, p);
      var first := if prio(a[0]) == p then [a[0]] else [];
      assert first + (Equals(a[1..], prio, p) + Equals(b, prio, p)) == first + Equals(a[1..], prio, p) + Equals(b, prio, p);
    }
  }

  lemma {:induction false} EqualsNone(q: seq<Tid>, prio: Tid -> nat, p: nat)
    requires forall x :: x in q ==> prio(x) != p
    ensures Equals(q, prio, p) == []
  {
    if q != [] {
      EqualsNone(q[1..], prio, p);
    }
  }

  // ---------------------------------------------------------------- senders and receivers

  /** The two lists of a mailbox or a message queue, and the threads woken from them that are not yet back. */
  datatype Sides = Sides(
    waitS: seq<Tid>,               // suspend_sender_thread
    waitR: seq<Tid>,               // suspend_thread
    wokenS: set<Tid>,
    wokenR: set<Tid>)
  {
    ghost predicate Awake(t: Tid) {
      t !in waitS && t !in waitR
    }

    /** t is running, at the point where a sender looks for room. */
    ghost predicate AtSend(t: Tid) {
      Awake(t) && t !in wokenR
    }

    /** t is running, at the point where a receiver looks for a message. */
    ghost predicate AtReceive(t: Tid) {
      Awake(t) && t !in wokenS
    }

    function SenderDone(t: Tid): Sides {
      this.(wokenS := wokenS - {t})
    }

    function ReceiverDone(t: Tid): Sides {
      this.(wokenR := wokenR - {t})
    }

    function SenderWaits(t: Tid, k: nat): Sides
      requires k <= |waitS|
    {
      this.(waitS := InsertAt(waitS, k, t), wokenS := wokenS - {t})
    }

    function ReceiverWaits(t: Tid, k: nat): Sides
      requires k <= |waitR|
    {
      this.(waitR := InsertAt(waitR, k, t), wokenR := wokenR - {t})
    }

    function WakeSender(): Sides {
      this.(waitS := Rest(waitS), wokenS := WokenToo(waitS, wokenS))
    }

    function WakeReceiver(): Sides {
      this.(waitR := Rest(waitR), wokenR := WokenToo(waitR, wokenR))
    }

    function TimedOut(t: Tid): Sides {
      this.(waitS := Without(waitS, t), waitR := Without(waitR, t))
    }

    /** _ipc_list_resume_all on both lists: these threads return with an error and do not look again. */
    function AllResumed(): Sides {
      this.(waitS := [], waitR := [])
    }
  }

  /** A thread is in no more than one of the four roles. */
  ghost predicate Apart(w: Sides) {
    (forall t :: t in w.waitS ==> t !in w.waitR && t !in w.wokenS && t !in w.wokenR)
    && (forall t :: t in w.waitR ==> t !in w.wokenS && t !in w.wokenR)
    && w.wokenS !! w.wokenR
  }

  /** No wakeup is lost on either side, for the messages that are there and the room there is. */
  ghost predicate BothServed(w: Sides, messages: nat, room: nat) {
    Apart(w) && Served(w.waitR, w.wokenR, messages) && Served(w.waitS, w.wokenS, room)
  }

  lemma FirstOf(wait: seq<Tid>)
    requires NoRepeats(wait)
    ensures forall x :: x in Rest(wait) ==> x in wait && x != wait[0]
    ensures forall x, woken :: x in WokenToo(wait, woken) <==> x in woken || (wait != [] && x == wait[0])
  {
    if wait != [] {
      WithoutFirst(wait);
    }
  }

  lemma SendServed(w: Sides, messages: nat, room: nat, t: Tid)
    requires BothServed(w, messages, room)
    ensures room > 0 ==> BothServed(w.SenderDone(t), messages, room - 1)
    ensures room == 0 ==> BothServed(w.SenderDone(t), messages, 0)
  {
    if room > 0 {
      TakeOne(w.waitS, w.wokenS, room, t);
    }
  }

  lemma ReceiveServed(w: Sides, messages: nat, room: nat, t: Tid)
    requires BothServed(w, messages, room)
    ensures messages > 0 ==> BothServed(w.ReceiverDone(t), messages - 1, room)
    ensures messages == 0 ==> BothServed(w.ReceiverDone(t), 0, room)
  {
    if messages > 0 {
      TakeOne(w.waitR, w.wokenR, messages, t);
    }
  }

  lemma SenderWaitsServed(w: Sides, messages: nat, t: Tid, k: nat)
    requires BothServed(w, messages, 0) && w.AtSend(t) && k <= |w.waitS|
    ensures BothServed(w.SenderWaits(t, k), messages, 0)
  {
    JoinWait(w.waitS, w.wokenS, t, k);
    InsertAtPoints(w.waitS, k, t);
    hide InsertAt, NoRepeats;
  }

  lemma ReceiverWaitsServed(w: Sides, room: nat, t: Tid, k: nat)
    requires BothServed(w, 0, room) && w.AtReceive(t) && k <= |w.waitR|
    ensures BothServed(w.ReceiverWaits(t, k), 0, room)
  {
    JoinWait(w.waitR, w.wokenR, t, k);
    InsertAtPoints(w.waitR, k, t);
    hide InsertAt, NoRepeats;
  }

  lemma WakeSenderServed(w: Sides, messages: nat, room: nat)
    requires BothServed(w, messages, room)
    ensures BothServed(w.WakeSender(), messages, room + 1)
  {
    WakeOne(w.waitS, w.wokenS, room);
    FirstOf(w.waitS);
    hide Rest, WokenToo, NoRepeats;
  }

  lemma WakeReceiverServed(w: Sides, messages: nat, room: nat)
    requires BothServed(w, messages, room)
    ensures BothServed(w.WakeReceiver(), messages + 1, room)
  {
    WakeOne(w.waitR, w.wokenR, messages);
    FirstOf(w.waitR);
    hide Rest, WokenToo, NoRepeats;
  }

  lemma TimedOutServed(w: Sides, messages: nat, room: nat, t: Tid)
    requires BothServed(w, messages, room)
    ensures BothServed(w.TimedOut(t), messages, room)
  {
    TimeOut(w.waitR, w.wokenR, messages, t);
    TimeOut(w.waitS, w.wokenS, room, t);
    hide NoRepeats;
  }

  lemma AllResumedServed(w: Sides, messages: nat, room: nat, messages': nat, room': nat)
    requires BothServed(w, messages, room)
    ensures BothServed(w.AllResumed(), messages', room')
  {
  }

  // ---------------------------------------------------------------- distinct blocks of a pool

  function UpTo(n: nat): (r: set<nat>)
    ensures |r| == n && forall x :: x in r <==> 1 <= x <= n
  {
    if n == 0 then {} else UpTo(n - 1) + {n}
  }

  /** Numbers from 1 to n without repeats are no more than n, and fewer than n if x is missing. */
  lemma Pigeonhole(s: seq<nat>, n: nat, x: nat)
    requires NoRepeats(s) && forall y :: y in s ==> 1 <= y <= n
    ensures |s| <= n
    ensures 1 <= x <= n && x !in s ==> |s| < n
  {
    var elems := set y | y in s;
    CountDistinct(s, elems);
    SubsetSize(elems, UpTo(n));
    if 1 <= x <= n && x !in s {
      SubsetSize(elems, UpTo(n) - {x});
    }
  }

  lemma {:induction false} CountDistinct(s: seq<nat>, elems: set<nat>)
    requires NoRepeats(s) && elems == set x | x in s
    ensures |elems| == |s|
  {
    if s == [] {
      assert elems == {};
    } else {
      var rest := set x | x in s[1..];
      CountDistinct(s[1..], rest);
      assert s == [s[0]] + s[1..];
      assert elems == rest + {s[0]};
      assert s[0] !in s[1..];
    }
  }
}
