/** The message queue (src/ipc.c:2484-2535, 2749-3283) as a transition system with one step for each stretch of
    code that runs with interrupts disabled, so that a run of steps is any interleaving of senders, urgent senders,
    receivers, timeouts and resets. */
module MessageQueue {
  import opened Basics
  import opened Links
  import opened Lists
  import opened Waiting

  const ENTRY_MAX: nat := 0xFFFF          // RT_MQ_ENTRY_MAX

  /** Who has a block of the message pool: the free list, the queue, or a thread in the middle of a call. */
  datatype Owner =
    | Free
    | Queued
    | Sender(t: Tid)       // taken off the free list
    | Ready(t: Tid)        // filled, its link cleared
    | Urgent(t: Tid)       // filled by rt_mq_urgent
    | Receiver(t: Tid)     // taken off the queue

  datatype State = State(
    free: seq<nat>,               // msg_queue_free, first block first
    queue: seq<nat>,              // msg_queue_head, first block first
    owner: map<nat, Owner>,
    body: seq<seq<Byte>>,         // contents of the blocks
    w: Sides)                     // the suspended threads and those woken but not yet back from rt_schedule

  datatype Event =
    | Pop(t: Tid)                             // a sender or an urgent sender takes a free block
    | Full(t: Tid)                            // there is none, and no time left to wait
    | SuspendSender(t: Tid, k: nat)
    | Fill(t: Tid, b: nat, buffer: seq<Byte>)
    | FillUrgent(t: Tid, b: nat, buffer: seq<Byte>)
    | Link(t: Tid, b: nat)
    | LinkUrgent(t: Tid, b: nat)
    | Take(t: Tid)                            // a receiver takes the first block of the queue
    | Empty(t: Tid)
    | SuspendReceiver(t: Tid, k: nat)
    | Put(t: Tid, b: nat)                     // and gives it back to the free list
    | TimedOut(t: Tid)
    | Reset

  /** When a step can happen: where the thread is in its call, and what the branch it takes has tested. */
  ghost predicate Enabled(s: State, e: Event) {
    match e
    case Pop(t) => s.free != [] && s.w.AtSend(t)
    case Full(t) => s.free == [] && s.w.AtSend(t)
    case SuspendSender(t, k) => s.free == [] && s.w.AtSend(t) && k <= |s.w.waitS|
    case Fill(t, b, buffer) => b in s.owner && s.owner[b] == Sender(t) && b < |s.body| && |buffer| <= |s.body[b]|
    case FillUrgent(t, b, buffer) => b in s.owner && s.owner[b] == Sender(t) && b < |s.body| && |buffer| <= |s.body[b]|
    case Link(t, b) => b in s.owner && s.owner[b] == Ready(t)
    case LinkUrgent(t, b) => b in s.owner && s.owner[b] == Urgent(t)
    case Take(t) => s.queue != [] && s.w.AtReceive(t)
    case Empty(t) => s.queue == [] && s.w.AtReceive(t)
    case SuspendReceiver(t, k) => s.queue == [] && s.w.AtReceive(t) && k <= |s.w.waitR|
    case Put(t, b) => b in s.owner && s.owner[b] == Receiver(t)
    case TimedOut(t) => !s.w.Awake(t)
    case Reset => true
  }

  /** rt_memcpy of the message into the block. */
  function Overwritten(was: seq<Byte>, buffer: seq<Byte>): seq<Byte>
    requires |buffer| <= |was|
  {
    buffer + was[|buffer|..]
  }

  function Reversed(q: seq<nat>): seq<nat> {
    if q == [] then [] else Reversed(q[1..]) + [q[0]]
  }

  ghost function Apply(s: State, e: Event): State
    requires Enabled(s, e)
  {
    match e
    case Pop(t) =>
      s.(free := s.free[1..], owner := s.owner[s.free[0] := Sender(t)], w := s.w.SenderDone(t))
    case Full(t) => s.(w := s.w.SenderDone(t))
    case SuspendSender(t, k) => s.(w := s.w.SenderWaits(t, k))
    case Fill(t, b, buffer) => s.(owner := s.owner[b := Ready(t)], body := s.body[b := Overwritten(s.body[b], buffer)])
    case FillUrgent(t, b, buffer) => s.(owner := s.owner[b := Urgent(t)], body := s.body[b := Overwritten(s.body[b], buffer)])
    case Link(t, b) =>
      s.(queue := s.queue + [b], owner := s.owner[b := Queued], w := s.w.WakeReceiver())
    case LinkUrgent(t, b) =>
      s.(queue := [b] + s.queue, owner := s.owner[b := Queued], w := s.w.WakeReceiver())
    case Take(t) =>
      s.(queue := s.queue[1..], owner := s.owner[s.queue[0] := Receiver(t)], w := s.w.ReceiverDone(t))
    case Empty(t) => s.(w := s.w.ReceiverDone(t))
    case SuspendReceiver(t, k) => s.(w := s.w.ReceiverWaits(t, k))
    case Put(t, b) =>
      s.(free := [b] + s.free, owner := s.owner[b := Free], w := s.w.WakeSender())
    case TimedOut(t) => s.(w := s.w.TimedOut(t))
    case Reset =>
      s.(free := Reversed(s.queue) + s.free, queue := [], owner := Released(s.owner), w := s.w.AllResumed())
  }

  function Released(owner: map<nat, Owner>): map<nat, Owner> {
    map b | b in owner :: if owner[b] == Queued then Free else owner[b]
  }

  // ---------------------------------------------------------------- the invariant

  /** The list holds each block of the given owner exactly once, and nothing else. */
  ghost predicate Holds(list: seq<nat>, owner: map<nat, Owner>, o: Owner) {
    NoRepeats(list) && forall b :: b in list <==> b in owner && owner[b] == o
  }

  ghost predicate Owned(free: seq<nat>, queue: seq<nat>, owner: map<nat, Owner>, max: nat) {
    Holds(free, owner, Free) && Holds(queue, owner, Queued) && forall b :: b in owner <==> 1 <= b <= max
  }

  ghost predicate Inv(s: State, max: nat, size: nat) {
    && Owned(s.free, s.queue, s.owner, max)
    && |s.body| == max + 1 && (forall b :: 0 <= b <= max ==> |s.body[b]| == size)
    && BothServed(s.w, |s.queue|, |s.free|)
  }

  lemma DropHead(list: seq<nat>, owner: map<nat, Owner>, o: Owner, o': Owner)
    requires Holds(list, owner, o) && list != [] && o' != o
    ensures Holds(list[1..], owner[list[0] := o'], o)
  {
    WithoutFirst(list);
    assert list == [list[0]] + list[1..];
  }

  lemma AddHead(list: seq<nat>, owner: map<nat, Owner>, o: Owner, b: nat)
    requires Holds(list, owner, o) && b in owner && owner[b] != o
    ensures Holds([b] + list, owner[b := o], o)
  {
    assert forall i :: 0 <= i < |list| ==> list[i] in list;
  }

  lemma AddTail(list: seq<nat>, owner: map<nat, Owner>, o: Owner, b: nat)
    requires Holds(list, owner, o) && b in owner && owner[b] != o
    ensures Holds(list + [b], owner[b := o], o)
  {
    assert forall i :: 0 <= i < |list| ==> list[i] in list;
  }

  lemma MoveElsewhere(list: seq<nat>, owner: map<nat, Owner>, o: Owner, b: nat, o': Owner)
    requires Holds(list, owner, o) && b in owner && owner[b] != o && o' != o
    ensures Holds(list, owner[b := o'], o)
  {
  }

  lemma {:induction false} ReversedHas(q: seq<nat>)
    requires NoRepeats(q)
    ensures NoRepeats(Reversed(q)) && |Reversed(q)| == |q| && forall b :: b in Reversed(q) <==> b in q
  {
    if q != [] {
      WithoutFirst(q);
      ReversedHas(q[1..]);
      assert q == [q[0]] + q[1..];
      var r := Reversed(q[1..]);
      assert forall i :: 0 <= i < |r| ==> r[i] in r;
    }
  }

  lemma ReleaseOwned(free: seq<nat>, queue: seq<nat>, owner: map<nat, Owner>, max: nat)
    requires Owned(free, queue, owner, max)
    ensures Owned(Reversed(queue) + free, [], Released(owner), max)
  {
    ReversedHas(queue);
    hide Reversed;
    var r := Reversed(queue);
    assert forall i :: 0 <= i < |r| ==> r[i] in queue;
    assert forall i :: 0 <= i < |free| ==> free[i] in free;
  }

  lemma OwnedKeeps(s: State, e: Event, max: nat, size: nat)
    requires Inv(s, max, size) && Enabled(s, e)
    ensures var s' := Apply(s, e); Owned(s'.free, s'.queue, s'.owner, max)
  {
    hide Holds, BothServed, Reversed, Released;
    var free, queue, owner := s.free, s.queue, s.owner;
    match e
    case Pop(t) =>
      HoldsEach(free, owner, Free);
      DropHead(free, owner, Free, Sender(t));
      MoveElsewhere(queue, owner, Queued, free[0], Sender(t));
    case Fill(t, b, buffer) =>
      MoveElsewhere(free, owner, Free, b, Ready(t));
      MoveElsewhere(queue, owner, Queued, b, Ready(t));
    case FillUrgent(t, b, buffer) =>
      MoveElsewhere(free, owner, Free, b, Urgent(t));
      MoveElsewhere(queue, owner, Queued, b, Urgent(t));
    case Link(t, b) =>
      MoveElsewhere(free, owner, Free, b, Queued);
      AddTail(queue, owner, Queued, b);
    case LinkUrgent(t, b) =>
      MoveElsewhere(free, owner, Free, b, Queued);
      AddHead(queue, owner, Queued, b);
    case Take(t) =>
      HoldsEach(queue, owner, Queued);
      DropHead(queue, owner, Queued, Receiver(t));
      MoveElsewhere(free, owner, Free, queue[0], Receiver(t));
    case Put(t, b) =>
      AddHead(free, owner, Free, b);
      MoveElsewhere(queue, owner, Queued, b, Free);
    case Reset => ReleaseOwned(free, queue, owner, max);
    case _ =>
  }

  lemma HoldsEach(list: seq<nat>, owner: map<nat, Owner>, o: Owner)
    requires Holds(list, owner, o)
    ensures forall i :: 0 <= i < |list| ==> list[i] in owner && owner[list[i]] == o
  {
  }

  lemma ServedKeeps(s: State, e: Event, max: nat, size: nat)
    requires Inv(s, max, size) && Enabled(s, e)
    ensures var s' := Apply(s, e); BothServed(s'.w, |s'.queue|, |s'.free|)
  {
    hide Holds, Owned, Reversed, Released, Overwritten, BothServed;
    var messages, room := |s.queue|, |s.free|;
    match e
    case Pop(t) => SendServed(s.w, messages, room, t);
    case Full(t) => SendServed(s.w, messages, room, t);
    case SuspendSender(t, k) => SenderWaitsServed(s.w, messages, t, k);
    case Link(t, b) => WakeReceiverServed(s.w, messages, room);
    case LinkUrgent(t, b) => WakeReceiverServed(s.w, messages, room);
    case Take(t) => ReceiveServed(s.w, messages, room, t);
    case Empty(t) => ReceiveServed(s.w, messages, room, t);
    case SuspendReceiver(t, k) => ReceiverWaitsServed(s.w, room, t, k);
    case Put(t, b) => WakeSenderServed(s.w, messages, room);
    case TimedOut(t) => TimedOutServed(s.w, messages, room, t);
    case Reset => AllResumedServed(s.w, messages, room, 0, |Reversed(s.queue) + s.free|);
    case _ =>
  }

  /** Every step keeps the invariant. */
  lemma StepKeeps(s: State, e: Event, max: nat, size: nat)
    requires Inv(s, max, size) && Enabled(s, e)
    ensures Inv(Apply(s, e), max, size)
  {
    OwnedKeeps(s, e, max, size);
    ServedKeeps(s, e, max, size);
    hide Holds, Owned, Reversed, Released, BothServed;
  }

  ghost predicate Runs(s: State, run: seq<Event>)
    decreases |run|
  {
    run == [] || (Enabled(s, run[0]) && Runs(Apply(s, run[0]), run[1..]))
  }

  ghost function After(s: State, run: seq<Event>): State
    requires Runs(s, run)
    decreases |run|
  {
    if run == [] then s else After(Apply(s, run[0]), run[1..])
  }

  /** Downto(n) is the free list rt_mq_init leaves: it pushes the blocks in address order. */
  function Downto(n: nat): (r: seq<nat>)
    ensures |r| == n && forall i :: 0 <= i < n ==> r[i] == n - i
  {
    if n == 0 then [] else [n] + Downto(n - 1)
  }

  ghost function FreshState(max: nat, body: seq<seq<Byte>>): (s: State)
    ensures s.body == body && s.w.waitR == s.w.waitS == []
  {
    State(Downto(max), [], map b | b in UpTo(max) :: Free, body, Sides([], [], {}, {}))
  }

  ghost predicate Fresh(s: State, max: nat, size: nat) {
    s == FreshState(max, s.body) && |s.body| == max + 1 && forall b :: 0 <= b <= max ==> |s.body[b]| == size
  }

  lemma FreshInv(s: State, max: nat, size: nat)
    requires Fresh(s, max, size)
    ensures Inv(s, max, size)
  {
    forall b
      ensures b in s.free <==> 1 <= b <= max
    {
      if 1 <= b <= max {
        assert s.free[max - b] == b;
      }
    }
  }

  /** Safety over every run: after any interleaving from the initial state each block of the pool is in exactly one
      place, nobody's wakeup has been lost, and whoever is about to link a block finds the queue short of both the
      pool and the limit of its counter. */
  lemma {:induction false} RunKeeps(s: State, run: seq<Event>, max: nat, size: nat)
    requires Inv(s, max, size) && Runs(s, run)
    ensures Inv(After(s, run), max, size)
    decreases |run|
  {
    hide Inv;
    if run != [] {
      StepKeeps(s, run[0], max, size);
      RunKeeps(Apply(s, run[0]), run[1..], max, size);
    }
  }

  lemma NeverOverflows(s: State, max: nat, size: nat, b: nat)
    requires Inv(s, max, size) && max <= ENTRY_MAX && b in s.owner && s.owner[b] != Queued
    ensures |s.queue| < max <= ENTRY_MAX
  {
    Pigeonhole(s.queue, max, b);
  }

  // ---------------------------------------------------------------- what is delivered

  function Messages(queue: seq<nat>, body: seq<seq<Byte>>): (r: seq<seq<Byte>>)
    requires forall i :: 0 <= i < |queue| ==> queue[i] < |body|
    ensures |r| == |queue| && forall i :: 0 <= i < |queue| ==> r[i] == body[queue[i]]
  {
    seq(|queue|, i requires 0 <= i < |queue| => body[queue[i]])
  }

  lemma QueueInPool(s: State, max: nat, size: nat)
    requires Inv(s, max, size)
    ensures forall i :: 0 <= i < |s.queue| ==> s.queue[i] < |s.body|
  {
    HoldsEach(s.queue, s.owner, Queued);
  }

  /** The pointers and the pool behave as a plain double-ended queue of message contents: linking puts the sender's
      contents at the back, or the urgent sender's in front, taking removes the first, a reset removes all, and no
      other step of any thread touches the messages. */
  lemma StepMessages(s: State, e: Event, max: nat, size: nat)
    requires Inv(s, max, size) && Enabled(s, e)
    ensures Inv(Apply(s, e), max, size)
    ensures (forall i :: 0 <= i < |s.queue| ==> s.queue[i] < |s.body|)
    ensures forall i :: 0 <= i < |Apply(s, e).queue| ==> Apply(s, e).queue[i] < |Apply(s, e).body|
    ensures e.Link? || e.LinkUrgent? ==> e.b < |s.body|
    ensures var m, m' := Messages(s.queue, s.body), Messages(Apply(s, e).queue, Apply(s, e).body);
            m' == match e
                  case Link(_, b) => m + [s.body[b]]
                  case LinkUrgent(_, b) => [s.body[b]] + m
                  case Take(_) => m[1..]
                  case Reset => []
                  case _ => m
  {
    hide Inv, Reversed, Released, InsertAt, Overwritten, Messages, Rest, WokenToo, Without;
    var s' := Apply(s, e);
    StepKeeps(s, e, max, size);
    QueueInPool(s, max, size);
    QueueInPool(s', max, size);
    QueueOwned(s, max, size);
    match e
    case Link(_, b) => MessagesJoin(s.queue, [b], s.body); MessagesOne(b, s.body);
    case LinkUrgent(_, b) => MessagesJoin([b], s.queue, s.body); MessagesOne(b, s.body);
    case Take(_) => MessagesRest(s.queue, s.body);
    case Reset => MessagesNone(s.body);
    case Fill(_, b, buffer) => MessagesElsewhere(s.queue, s.body, b, Overwritten(s.body[b], buffer));
    case FillUrgent(_, b, buffer) => MessagesElsewhere(s.queue, s.body, b, Overwritten(s.body[b], buffer));
    case _ =>
  }

  /** The messages themselves: those linked, in order, and those in the hands of a thread that has filled a block or taken
      one. */
  datatype Sent = Sent(queue: seq<seq<Byte>>, hand: map<nat, seq<Byte>>)

  /** What happens to the messages: a plain double-ended queue of the buffers that were sent. */
  ghost function Follow(s: State, e: Event, h: Sent): Sent
    requires Enabled(s, e)
  {
    match e
    case Fill(_, b, buffer) => h.(hand := h.hand[b := buffer])
    case FillUrgent(_, b, buffer) => h.(hand := h.hand[b := buffer])
    case Link(_, b) => if b in h.hand then Sent(h.queue + [h.hand[b]], h.hand - {b}) else h
    case LinkUrgent(_, b) => if b in h.hand then Sent([h.hand[b]] + h.queue, h.hand - {b}) else h
    case Take(_) => if h.queue != [] then Sent(h.queue[1..], h.hand[s.queue[0] := h.queue[0]]) else h
    case Put(_, b) => h.(hand := h.hand - {b})
    case Reset => h.(queue := [])
    case _ => h
  }

  ghost predicate Starts(p: seq<Byte>, q: seq<Byte>) {
    |p| <= |q| && q[..|p|] == p
  }

  ghost predicate InHand(o: Owner) {
    o.Ready? || o.Urgent? || o.Receiver?
  }

  /** Each block on its way starts with the message that was sent in it. */
  ghost predicate Carries(s: State, h: Sent) {
    && |h.queue| == |s.queue|
    && (forall i :: 0 <= i < |s.queue| ==> s.queue[i] < |s.body| && Starts(h.queue[i], s.body[s.queue[i]]))
    && (forall b :: b in s.owner && InHand(s.owner[b]) ==> b in h.hand && b < |s.body| && Starts(h.hand[b], s.body[b]))
  }

  lemma StepDelivers(s: State, e: Event, h: Sent, max: nat, size: nat)
    requires Inv(s, max, size) && Enabled(s, e) && Carries(s, h)
    ensures Carries(Apply(s, e), Follow(s, e, h))
  {
    hide Inv, BothServed, InsertAt, Without, Reversed, Starts, Rest, WokenToo;
    if e.Fill? || e.FillUrgent? {
      FillDelivers(s, e, h, max, size);
    } else {
      QueueOwned(s, max, size);
    }
  }

  lemma FillDelivers(s: State, e: Event, h: Sent, max: nat, size: nat)
    requires Inv(s, max, size) && Enabled(s, e) && Carries(s, h) && (e.Fill? || e.FillUrgent?)
    ensures Carries(Apply(s, e), Follow(s, e, h))
  {
    hide Inv, BothServed, Starts;
    QueueOwned(s, max, size);
    CopyStarts(s.body[e.b], e.buffer);
  }

  lemma CopyMeans(was: seq<Byte>, buffer: seq<Byte>)
    requires |buffer| <= |was|
    ensures var now := Overwritten(was, buffer);
            |now| == |was| && now[..|buffer|] == buffer && now[|buffer|..] == was[|buffer|..]
  {
  }

  lemma CopyStarts(was: seq<Byte>, buffer: seq<Byte>)
    requires |buffer| <= |was|
    ensures Starts(buffer, Overwritten(was, buffer))
  {
  }

  ghost function Followed(s: State, run: seq<Event>, h: Sent): Sent
    requires Runs(s, run)
    decreases |run|
  {
    if run == [] then h else Followed(Apply(s, run[0]), run[1..], Follow(s, run[0], h))
  }

  /** So over every interleaving. */
  lemma {:induction false} RunDelivers(s: State, run: seq<Event>, h: Sent, max: nat, size: nat)
    requires Inv(s, max, size) && Runs(s, run) && Carries(s, h)
    ensures Carries(After(s, run), Followed(s, run, h))
    decreases |run|
  {
    hide Inv, Enabled, Apply, Follow, Carries;
    if run != [] {
      StepKeeps(s, run[0], max, size);
      StepDelivers(s, run[0], h, max, size);
      RunDelivers(Apply(s, run[0]), run[1..], Follow(s, run[0], h), max, size);
    }
  }

  /** In the end: from a fresh queue, over every interleaving, a receiver with enough room gets the message that the queue
      of sent buffers had in front when it took its block. */
  lemma Delivered(s0: State, run: seq<Event>, max: nat, size: nat, b: nat, t: Tid, room: nat)
    requires Fresh(s0, max, size) && Runs(s0, run)
    requires b in After(s0, run).owner && After(s0, run).owner[b] == Receiver(t)
    ensures var s, h := After(s0, run), Followed(s0, run, Sent([], map[]));
      && b in h.hand && b < |s.body| && |s.body[b]| == size && |h.hand[b]| <= size
      && (|h.hand[b]| <= room ==> s.body[b][..if room > size then size else room][..|h.hand[b]|] == h.hand[b])
  {
    FreshInv(s0, max, size);
    hide Enabled, Apply, Follow;
    RunKeeps(s0, run, max, size);
    RunDelivers(s0, run, Sent([], map[]), max, size);
  }

  lemma QueueOwned(s: State, max: nat, size: nat)
    requires Inv(s, max, size)
    ensures forall b :: b in s.queue ==> b in s.owner && s.owner[b] == Queued
    ensures forall b :: b in s.owner ==> b < |s.body|
  {
  }

  lemma MessagesNone(body: seq<seq<Byte>>)
    ensures Messages([], body) == []
  {
  }

  lemma MessagesOne(b: nat, body: seq<seq<Byte>>)
    requires b < |body|
    ensures Messages([b], body) == [body[b]]
  {
  }

  lemma MessagesJoin(p: seq<nat>, q: seq<nat>, body: seq<seq<Byte>>)
    requires forall i :: 0 <= i < |p| ==> p[i] < |body|
    requires forall i :: 0 <= i < |q| ==> q[i] < |body|
    ensures forall i :: 0 <= i < |p + q| ==> (p + q)[i] < |body|
    ensures Messages(p + q, body) == Messages(p, body) + Messages(q, body)
  {
  }

  lemma MessagesRest(q: seq<nat>, body: seq<seq<Byte>>)
    requires q != [] && forall i :: 0 <= i < |q| ==> q[i] < |body|
    ensures forall i :: 0 <= i < |q[1..]| ==> q[1..][i] < |body|
    ensures Messages(q[1..], body) == Messages(q, body)[1..]
  {
  }

  lemma MessagesElsewhere(q: seq<nat>, body: seq<seq<Byte>>, b: nat, content: seq<Byte>)
    requires b < |body| && b !in q && forall i :: 0 <= i < |q| ==> q[i] < |body|
    ensures Messages(q, body[b := content]) == Messages(q, body)
  {
  }

  /** A block in the hands of a receiver keeps its contents, whatever the others do, until that receiver puts it
      back. */
  lemma ReceiverUndisturbed(s: State, e: Event, max: nat, size: nat, b: nat, t: Tid)
    requires Inv(s, max, size) && Enabled(s, e)
    requires b in s.owner && b < |s.body| && s.owner[b] == Receiver(t) && e != Put(t, b)
    ensures var s' := Apply(s, e);
            b in s'.owner && s'.owner[b] == Receiver(t) && b < |s'.body| && s'.body[b] == s.body[b]
  {
    HoldsEach(s.free, s.owner, Free);
    HoldsEach(s.queue, s.owner, Queued);
    hide Inv, Reversed, InsertAt;
  }

  // ---------------------------------------------------------------- the pointers

  /** What the fields of the message queue say about the state. */
  ghost predicate Linked(next: seq<nat>, head: nat, tail: nat, free: nat, entry: nat, s: State) {
    var ok :=
      && Chain(next, head, s.queue) && Chain(next, free, s.free)
      && tail == (if s.queue == [] then 0 else s.queue[|s.queue| - 1])
      && entry == |s.queue|
      && (forall b :: b in s.owner && s.owner[b].Ready? ==> b < |next| && next[b] == 0);
    ok
  }

  lemma ChainNone(next: seq<nat>)
    ensures Chain(next, 0, Downto(0))
  {
  }

  lemma DowntoStep(n: nat)
    requires n > 0
    ensures Downto(n) == [n] + Downto(n - 1) && n !in Downto(n - 1)
  {
  }

  lemma FreshLinked(next: seq<nat>, free: nat, s: State, max: nat, size: nat)
    requires Fresh(s, max, size) && Chain(next, free, Downto(max))
    ensures Linked(next, 0, 0, free, 0, s)
  {
    hide Downto;
  }

  lemma OwnedEach(s: State, max: nat, size: nat)
    requires Inv(s, max, size)
    ensures forall b :: b in s.queue ==> b in s.owner && s.owner[b] == Queued
    ensures forall b :: b in s.free ==> b in s.owner && s.owner[b] == Free
    ensures forall b :: b in s.owner ==> 1 <= b <= max
    ensures NoRepeats(s.queue) && NoRepeats(s.free)
  {
  }

  lemma PopLinked(next: seq<nat>, head: nat, tail: nat, free: nat, entry: nat, s: State, t: Tid)
    requires Linked(next, head, tail, free, entry, s)
    ensures free == 0 <==> s.free == []
    ensures free != 0 && Enabled(s, Pop(t)) ==>
              free < |next| && free == s.free[0] && Linked(next, head, tail, next[free], entry, Apply(s, Pop(t)))
  {
    ChainPop(next, free, s.free);
    hide Chain;
  }

  lemma FillLinked(next: seq<nat>, head: nat, tail: nat, free: nat, entry: nat, s: State, t: Tid, b: nat,
                   buffer: seq<Byte>, max: nat, size: nat)
    requires Linked(next, head, tail, free, entry, s) && Inv(s, max, size) && |next| == max + 1
    requires Enabled(s, Fill(t, b, buffer))
    ensures b < |next| && Linked(next[b := 0], head, tail, free, entry, Apply(s, Fill(t, b, buffer)))
  {
    hide Chain, Inv, Overwritten;
    OwnedEach(s, max, size);
    ChainFrame(next, head, s.queue, b, 0);
    ChainFrame(next, free, s.free, b, 0);
  }

  lemma LinkLinked(next: seq<nat>, head: nat, tail: nat, free: nat, entry: nat, s: State, t: Tid, b: nat, max: nat, size: nat)
    requires Linked(next, head, tail, free, entry, s) && Inv(s, max, size) && |next| == max + 1
    requires Enabled(s, Link(t, b))
    ensures 0 < b < |next| && tail < |next|
    ensures var next' := if tail != 0 then next[tail := b] else next;
            Linked(next', if head == 0 then b else head, b, free, entry + 1, Apply(s, Link(t, b)))
  {
    hide Chain, Inv, NoRepeats, Rest, WokenToo;
    OwnedEach(s, max, size);
    ChainPop(next, head, s.queue);
    ChainAppend(next, head, s.queue, b);
    if s.queue != [] {
      assert tail in s.queue && tail !in s.free;
      TailInside(next, head, s.queue);
      ChainFrame(next, free, s.free, tail, b);
    }
    assert s.queue == [] ==> s.queue + [b] == [b];
  }

  lemma UrgentLinked(next: seq<nat>, head: nat, tail: nat, free: nat, entry: nat, s: State, t: Tid, b: nat, max: nat, size: nat)
    requires Linked(next, head, tail, free, entry, s) && Inv(s, max, size) && |next| == max + 1
    requires Enabled(s, LinkUrgent(t, b))
    ensures 0 < b < |next|
    ensures Linked(next[b := head], b, if tail == 0 then b else tail, free, entry + 1, Apply(s, LinkUrgent(t, b)))
  {
    hide Chain, Inv, NoRepeats, Rest, WokenToo;
    OwnedEach(s, max, size);
    ChainPush(next, head, s.queue, b);
    ChainFrame(next, free, s.free, b, head);
    if s.queue != [] {
      TailInside(next, head, s.queue);
    }
  }

  lemma TakeLinked(next: seq<nat>, head: nat, tail: nat, free: nat, entry: nat, s: State, t: Tid, max: nat, size: nat)
    requires Linked(next, head, tail, free, entry, s) && Inv(s, max, size)
    ensures entry == 0 <==> s.queue == []
    ensures entry != 0 && Enabled(s, Take(t)) ==>
              head < |next| && head == s.queue[0]
              && Linked(next, next[head], if tail == head then 0 else tail, free, entry - 1, Apply(s, Take(t)))
  {
    ChainPop(next, head, s.queue);
    hide Chain, BothServed;
  }

  lemma PutLinked(next: seq<nat>, head: nat, tail: nat, free: nat, entry: nat, s: State, t: Tid, b: nat, max: nat, size: nat)
    requires Linked(next, head, tail, free, entry, s) && Inv(s, max, size) && |next| == max + 1
    requires Enabled(s, Put(t, b))
    ensures 0 < b < |next| && Linked(next[b := free], head, tail, b, entry, Apply(s, Put(t, b)))
  {
    hide Chain, Inv, NoRepeats, Rest, WokenToo;
    OwnedEach(s, max, size);
    ChainFrame(next, head, s.queue, b, free);
    ChainPush(next, free, s.free, b);
  }

  /** The loop of rt_mq_init that pushes the blocks on the free list. */
  method LinkFree(next: array<nat>, max: nat) returns (free: nat)
    requires next.Length == max + 1
    modifies next
    ensures Chain(next[..], free, Downto(max))
  {
    hide Chain, Downto;
    free := 0;
    var temp := 0;
    ChainNone(next[..]);
    while temp < max
      invariant temp <= max
      invariant Chain(next[..], free, Downto(temp))
    {
      ghost var was := next[..];
      next[temp + 1] := free;
      DowntoStep(temp + 1);
      ChainPush(was, free, Downto(temp), temp + 1);
      assert next[..] == was[temp + 1 := free];
      free := temp + 1;
      temp := temp + 1;
    }
  }

  class Mq {
    const max: nat                      // max_msgs
    const size: nat                     // msg_size
    const flag: Flag
    const next: array<nat>              // the link word of each block of msg_pool; blocks count from 1
    const pool: array<seq<Byte>>        // the rest of each block
    var head: nat
    var tail: nat
    var free: nat
    var entry: nat
    var waitR: seq<Tid>
    var waitS: seq<Tid>
    ghost var s: State

    ghost predicate Valid()
      reads this, next, pool
    {
      && max <= ENTRY_MAX && next.Length == pool.Length == max + 1
      && Inv(s, max, size) && Linked(next[..], head, tail, free, entry, s)
      && pool[..] == s.body && waitR == s.w.waitR && waitS == s.w.waitS
    }

    /** rt_mq_init; max_msgs is a 16-bit field. */
    constructor (max: nat, size: nat, flag: Flag)
      requires max <= ENTRY_MAX
      ensures Valid() && Fresh(s, max, size) && this.max == max && this.size == size && this.flag == flag
      ensures fresh(next) && fresh(pool)
    {
      this.max, this.size, this.flag := max, size, flag;
      next := new nat[max + 1](_ => 0);
      pool := new seq<Byte>[max + 1](_ => seq(size, _ => 0));
      head, tail, free, entry := 0, 0, 0, 0;
      waitR, waitS := [], [];
      new;
      hide Chain, Linked, Inv, Downto, FreshState;
      free := LinkFree(next, max);
      s := FreshState(max, pool[..]);
      FreshInv(s, max, size);
      FreshLinked(next[..], free, s, max, size);
    }

    /** Sender and urgent sender, first region: a block, or 0 if there is none. */
    method PopFree(t: Tid) returns (msg: nat)
      requires Valid() && s.w.AtSend(t)
      modifies this`free, this`s
      ensures Valid() && (msg == 0 <==> old(s.free) == [])
      ensures msg != 0 ==> Enabled(old(s), Pop(t)) && s == Apply(old(s), Pop(t)) && msg == old(s.free[0])
      ensures msg == 0 ==> s == old(s)
    {
      hide Inv, Linked;
      PopLinked(next[..], head, tail, free, entry, s, t);
      msg := free;
      if msg != 0 {
        free := next[msg];
        StepKeeps(s, Pop(t), max, size);
        s := Apply(s, Pop(t));
      }
    }

    /** The queue is full: return an error if no time is left, otherwise suspend. */
    method WaitToSend(t: Tid, timeout: int, prio: Tid -> nat) returns (suspended: bool)
      requires Valid() && s.w.AtSend(t) && s.free == []
      modifies this`waitS, this`s
      ensures Valid() && suspended == (timeout != 0)
      ensures var e := if timeout == 0 then Full(t) else SuspendSender(t, Place(old(s.w.waitS), t, flag, prio));
              Enabled(old(s), e) && s == Apply(old(s), e)
    {
      hide Inv, Linked, InsertAt;
      ghost var e := Full(t);
      suspended := timeout != 0;
      if suspended {
        var r, k := Suspend(waitS, t, flag, prio);
        e := SuspendSender(t, k);
        waitS := r;
      }
      StepKeeps(s, e, max, size);
      SameLists(next[..], head, tail, free, entry, s, Apply(s, e));
      s := Apply(s, e);
    }

    /** Between the regions of a sender: the block is its own. */
    method FillBlock(t: Tid, msg: nat, buffer: seq<Byte>)
      requires Valid() && msg in s.owner && s.owner[msg] == Sender(t) && |buffer| <= size
      modifies next, pool, this`s
      ensures Valid() && Enabled(old(s), Fill(t, msg, buffer)) && s == Apply(old(s), Fill(t, msg, buffer))
      ensures msg < |old(s.body)| == |s.body| && |s.body[msg]| == |old(s.body)[msg]| && |buffer| <= |s.body[msg]|
      ensures s.body[msg][..|buffer|] == buffer && s.body[msg][|buffer|..] == old(s.body)[msg][|buffer|..]
      ensures forall b: nat :: b < |s.body| && b != msg ==> s.body[b] == old(s.body)[b]
    {
      hide Linked, Overwritten, BothServed, Holds;
      StepKeeps(s, Fill(t, msg, buffer), max, size);
      FillLinked(next[..], head, tail, free, entry, s, t, msg, buffer, max, size);
      CopyMeans(s.body[msg], buffer);
      hide Inv;
      ghost var was := next[..];
      next[msg] := 0;
      assert next[..] == was[msg := 0];
      pool[msg] := Overwritten(pool[msg], buffer);
      s := Apply(s, Fill(t, msg, buffer));
    }

    method FillUrgentBlock(t: Tid, msg: nat, buffer: seq<Byte>)
      requires Valid() && msg in s.owner && s.owner[msg] == Sender(t) && |buffer| <= size
      modifies pool, this`s
      ensures Valid() && Enabled(old(s), FillUrgent(t, msg, buffer)) && s == Apply(old(s), FillUrgent(t, msg, buffer))
      ensures msg < |old(s.body)| == |s.body| && |s.body[msg]| == |old(s.body)[msg]| && |buffer| <= |s.body[msg]|
      ensures s.body[msg][..|buffer|] == buffer && s.body[msg][|buffer|..] == old(s.body)[msg][|buffer|..]
      ensures forall b: nat :: b < |s.body| && b != msg ==> s.body[b] == old(s.body)[b]
    {
      hide Linked, Overwritten, BothServed, Holds;
      StepKeeps(s, FillUrgent(t, msg, buffer), max, size);
      UrgentFillLinked(next[..], head, tail, free, entry, s, t, msg, buffer);
      CopyMeans(s.body[msg], buffer);
      hide Inv;
      pool[msg] := Overwritten(pool[msg], buffer);
      s := Apply(s, FillUrgent(t, msg, buffer));
    }

    /** _ipc_list_resume on the receivers, if any is suspended. */
    method WakeReceiver() returns (woken: bool)
      modifies this`waitR
      ensures waitR == Rest(old(waitR)) && (woken <==> old(waitR) != [])
    {
      woken := waitR != [];
      if woken {
        waitR := waitR[1..];
      }
    }

    method WakeSender() returns (woken: bool)
      modifies this`waitS
      ensures waitS == Rest(old(waitS)) && (woken <==> old(waitS) != [])
    {
      woken := waitS != [];
      if woken {
        waitS := waitS[1..];
      }
    }

    /** Sender, second region. The counter never overflows: fits is the test of the branch that would fail. */
    method LinkMessage(t: Tid, msg: nat) returns (fits: bool)
      requires Valid() && msg in s.owner && s.owner[msg] == Ready(t)
      modifies next, this`head, this`tail, this`entry, this`waitR, this`s
      ensures fits && Valid() && Enabled(old(s), Link(t, msg)) && s == Apply(old(s), Link(t, msg))
    {
      hide Linked, BothServed, Holds, Rest, WokenToo;
      StepKeeps(s, Link(t, msg), max, size);
      LinkLinked(next[..], head, tail, free, entry, s, t, msg, max, size);
      NeverOverflows(s, max, size, msg);
      EntryIs(next[..], head, tail, free, entry, s);
      hide Inv;
      ghost var was := next[..];
      if tail != 0 {
        next[tail] := msg;
      }
      assert next[..] == if tail != 0 then was[tail := msg] else was;
      tail := msg;
      if head == 0 {
        head := msg;
      }
      fits := entry < ENTRY_MAX;
      if fits {
        entry := entry + 1;
        var woken := WakeReceiver();
      }
      s := Apply(s, Link(t, msg));
    }

    method LinkUrgentMessage(t: Tid, msg: nat) returns (fits: bool)
      requires Valid() && msg in s.owner && s.owner[msg] == Urgent(t)
      modifies next, this`head, this`tail, this`entry, this`waitR, this`s
      ensures fits && Valid() && Enabled(old(s), LinkUrgent(t, msg)) && s == Apply(old(s), LinkUrgent(t, msg))
    {
      hide Linked, BothServed, Holds, Rest, WokenToo;
      StepKeeps(s, LinkUrgent(t, msg), max, size);
      UrgentLinked(next[..], head, tail, free, entry, s, t, msg, max, size);
      NeverOverflows(s, max, size, msg);
      EntryIs(next[..], head, tail, free, entry, s);
      hide Inv;
      ghost var was := next[..];
      next[msg] := head;
      assert next[..] == was[msg := head];
      head := msg;
      if tail == 0 {
        tail := msg;
      }
      fits := entry < ENTRY_MAX;
      if fits {
        entry := entry + 1;
        var woken := WakeReceiver();
      }
      s := Apply(s, LinkUrgent(t, msg));
    }

    /** Receiver, first region, when the counter is not zero. */
    method TakeMessage(t: Tid) returns (msg: nat)
      requires Valid() && s.w.AtReceive(t) && entry != 0
      modifies this`head, this`tail, this`entry, this`s
      ensures Valid() && Enabled(old(s), Take(t)) && s == Apply(old(s), Take(t)) && msg == old(s.queue[0])
    {
      hide Linked, BothServed, Holds;
      TakeLinked(next[..], head, tail, free, entry, s, t, max, size);
      StepKeeps(s, Take(t), max, size);
      hide Inv;
      msg := head;
      head := next[msg];
      if tail == msg {
        tail := 0;
      }
      if entry > 0 {
        entry := entry - 1;
      }
      s := Apply(s, Take(t));
    }

    method WaitToReceive(t: Tid, timeout: int, prio: Tid -> nat) returns (suspended: bool)
      requires Valid() && s.w.AtReceive(t) && entry == 0
      modifies this`waitR, this`s
      ensures Valid() && suspended == (timeout != 0)
      ensures var e := if timeout == 0 then Empty(t) else SuspendReceiver(t, Place(old(s.w.waitR), t, flag, prio));
              Enabled(old(s), e) && s == Apply(old(s), e)
    {
      hide Inv, Linked, InsertAt;
      EntryIs(next[..], head, tail, free, entry, s);
      ghost var e := Empty(t);
      suspended := timeout != 0;
      if suspended {
        var r, k := Suspend(waitR, t, flag, prio);
        e := SuspendReceiver(t, k);
        waitR := r;
      }
      StepKeeps(s, e, max, size);
      SameLists(next[..], head, tail, free, entry, s, Apply(s, e));
      s := Apply(s, e);
    }

    /** Between the regions of a receiver: as much of the message as there is room for. */
    method CopyMessage(t: Tid, msg: nat, room: nat) returns (buffer: seq<Byte>)
      requires Valid() && msg in s.owner && s.owner[msg] == Receiver(t)
      ensures msg < |s.body| && |s.body[msg]| == size && buffer == s.body[msg][..if room > size then size else room]
    {
      hide Linked, BothServed, Holds;
      buffer := pool[msg][..if room > size then size else room];
    }

    /** Receiver, second region. */
    method PutBack(t: Tid, msg: nat)
      requires Valid() && msg in s.owner && s.owner[msg] == Receiver(t)
      modifies next, this`free, this`waitS, this`s
      ensures Valid() && Enabled(old(s), Put(t, msg)) && s == Apply(old(s), Put(t, msg))
    {
      hide Linked, BothServed, Holds, Rest, WokenToo;
      StepKeeps(s, Put(t, msg), max, size);
      PutLinked(next[..], head, tail, free, entry, s, t, msg, max, size);
      hide Inv;
      ghost var was := next[..];
      next[msg] := free;
      assert next[..] == was[msg := free];
      free := msg;
      var woken := WakeSender();
      s := Apply(s, Put(t, msg));
    }

    /** _thread_timeout for a thread suspended here. */
    method TimeOutThread(t: Tid)
      requires Valid() && !s.w.Awake(t)
      modifies this`waitS, this`waitR, this`s
      ensures Valid() && Enabled(old(s), TimedOut(t)) && s == Apply(old(s), TimedOut(t))
    {
      hide Inv, Linked, Without;
      StepKeeps(s, TimedOut(t), max, size);
      SameLists(next[..], head, tail, free, entry, s, Apply(s, TimedOut(t)));
      waitS, waitR := Without(waitS, t), Without(waitR, t);
      s := Apply(s, TimedOut(t));
    }

    /** RT_IPC_CMD_RESET. */
    method ResetAll()
      requires Valid()
      modifies next, this`head, this`tail, this`free, this`entry, this`waitR, this`waitS, this`s
      ensures Valid() && Enabled(old(s), Reset) && s == Apply(old(s), Reset)
    {
      hide Inv, Linked, Reversed, Released, Chain;
      ghost var links := next[..];
      while waitR != []
        modifies this`waitR
        decreases |waitR|
      {
        waitR := waitR[1..];
      }
      while waitS != []
        modifies this`waitS
        decreases |waitS|
      {
        waitS := waitS[1..];
      }
      assert next[..] == links;
      StepKeeps(s, Reset, max, size);
      ghost var rest, freed := s.queue, s.free;
      ResetStarts(next[..], head, tail, free, entry, s, max, size);
      while head != 0
        modifies next, this`head, this`tail, this`free
        invariant Releasing(next[..], head, tail, free, rest, freed, s, max)
        decreases |rest|
      {
        ReleaseOne(next[..], head, tail, free, rest, freed, s, max);
        var msg := head;
        head := next[msg];
        if tail == msg {
          tail := 0;
        }
        ghost var was := next[..];
        next[msg] := free;
        assert next[..] == was[msg := free];
        free := msg;
        rest, freed := rest[1..], [msg] + freed;
      }
      ReleasedAll(next[..], head, tail, free, rest, freed, s, max);
      entry := 0;
      s := Apply(s, Reset);
    }
  }

  lemma EntryIs(next: seq<nat>, head: nat, tail: nat, free: nat, entry: nat, s: State)
    requires Linked(next, head, tail, free, entry, s)
    ensures entry == |s.queue|
  {
  }

  lemma SameLists(next: seq<nat>, head: nat, tail: nat, free: nat, entry: nat, s: State, s': State)
    requires Linked(next, head, tail, free, entry, s)
    requires s'.queue == s.queue && s'.free == s.free && s'.owner == s.owner
    ensures Linked(next, head, tail, free, entry, s')
  {
    hide Chain;
  }

  lemma UrgentFillLinked(next: seq<nat>, head: nat, tail: nat, free: nat, entry: nat, s: State, t: Tid, b: nat, buffer: seq<Byte>)
    requires Linked(next, head, tail, free, entry, s) && Enabled(s, FillUrgent(t, b, buffer))
    ensures Linked(next, head, tail, free, entry, Apply(s, FillUrgent(t, b, buffer)))
  {
    hide Chain, Overwritten;
  }

  /** The loop of the reset: rest is still queued, freed is on the free list. */
  ghost predicate Releasing(next: seq<nat>, head: nat, tail: nat, free: nat, rest: seq<nat>, freed: seq<nat>, s: State, max: nat) {
    var ok :=
      && |next| == max + 1 && Chain(next, head, rest) && Chain(next, free, freed)
      && tail == (if rest == [] then 0 else rest[|rest| - 1])
      && NoRepeats(rest) && (forall b :: b in rest ==> b !in freed)
      && (forall b :: b in rest ==> b in s.owner && s.owner[b] == Queued)
      && Reversed(rest) + freed == Reversed(s.queue) + s.free
      && (forall b :: b in s.owner && s.owner[b].Ready? ==> b < |next| && next[b] == 0);
    ok
  }

  lemma ResetStarts(next: seq<nat>, head: nat, tail: nat, free: nat, entry: nat, s: State, max: nat, size: nat)
    requires Linked(next, head, tail, free, entry, s) && Inv(s, max, size) && |next| == max + 1
    ensures Releasing(next, head, tail, free, s.queue, s.free, s, max)
  {
    hide Chain, Reversed, BothServed;
  }

  lemma ReleaseOne(next: seq<nat>, head: nat, tail: nat, free: nat, rest: seq<nat>, freed: seq<nat>, s: State, max: nat)
    requires Releasing(next, head, tail, free, rest, freed, s, max) && head != 0
    ensures head < |next| && rest != [] && head == rest[0]
    ensures Releasing(next[head := free], next[head], if tail == head then 0 else tail, head, rest[1..], [head] + freed, s, max)
  {
    hide Chain, NoRepeats, Reversed;
    ChainPop(next, head, rest);
    WithoutFirst(rest);
    ChainPush(next, free, freed, head);
    ChainFrame(next, next[head], rest[1..], head, free);
    assert rest == [rest[0]] + rest[1..];
    ReversedStep(rest, freed);
  }

  lemma ReversedStep(rest: seq<nat>, freed: seq<nat>)
    requires rest != []
    ensures Reversed(rest) + freed == Reversed(rest[1..]) + ([rest[0]] + freed)
  {
  }

  lemma ReleasedAll(next: seq<nat>, head: nat, tail: nat, free: nat, rest: seq<nat>, freed: seq<nat>, s: State, max: nat)
    requires Releasing(next, head, tail, free, rest, freed, s, max) && head == 0
    ensures Linked(next, head, tail, free, 0, Apply(s, Reset))
  {
    ChainPop(next, head, rest);
    assert Reversed(rest) + freed == freed;
    hide Chain;
  }
}
