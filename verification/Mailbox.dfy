/** The mailbox (src/ipc.c:1780-1815, 1991-2426): a ring buffer of words with threads waiting on both sides. Each
    step is one stretch of code with interrupts disabled. */
module Mailbox {
  import opened Lists
  import opened Waiting

  const ENTRY_MAX: nat := 0xFFFF          // RT_MB_ENTRY_MAX

  /** What a mailbox is, without the ring: the mails in the order in which they will be received. */
  datatype State = State(mails: seq<nat>, w: Sides)

  datatype Event =
    | Send(t: Tid, value: nat)
    | Full(t: Tid)
    | SuspendSender(t: Tid, k: nat)
    | Urgent(value: nat)
    | Receive(t: Tid)
    | Empty(t: Tid)
    | SuspendReceiver(t: Tid, k: nat)
    | TimedOut(t: Tid)
    | Reset

  ghost predicate Enabled(s: State, e: Event, size: nat) {
    match e
    case Send(t, value) => |s.mails| < size && s.w.AtSend(t)
    case Full(t) => |s.mails| == size && s.w.AtSend(t)
    case SuspendSender(t, k) => |s.mails| == size && s.w.AtSend(t) && k <= |s.w.waitS|
    case Urgent(value) => |s.mails| < size
    case Receive(t) => s.mails != [] && s.w.AtReceive(t)
    case Empty(t) => s.mails == [] && s.w.AtReceive(t)
    case SuspendReceiver(t, k) => s.mails == [] && s.w.AtReceive(t) && k <= |s.w.waitR|
    case TimedOut(t) => !s.w.Awake(t)
    case Reset => true
  }

  ghost function Apply(s: State, e: Event, size: nat): State
    requires Enabled(s, e, size)
  {
    match e
    case Send(t, value) => State(s.mails + [value], s.w.SenderDone(t).WakeReceiver())
    case Full(t) => s.(w := s.w.SenderDone(t))
    case SuspendSender(t, k) => s.(w := s.w.SenderWaits(t, k))
    case Urgent(value) => State([value] + s.mails, s.w.WakeReceiver())
    case Receive(t) => State(s.mails[1..], s.w.ReceiverDone(t).WakeSender())
    case Empty(t) => s.(w := s.w.ReceiverDone(t))
    case SuspendReceiver(t, k) => s.(w := s.w.ReceiverWaits(t, k))
    case TimedOut(t) => s.(w := s.w.TimedOut(t))
    case Reset => State([], s.w.AllResumed())
  }

  /** The mails fit, and no wakeup is lost: for each mail there is a woken receiver as long as receivers sleep, for
      each free cell a woken sender as long as senders sleep. */
  ghost predicate Inv(s: State, size: nat) {
    |s.mails| <= size && BothServed(s.w, |s.mails|, size - |s.mails|)
  }

  /** An urgent send takes room without being a woken sender: it barges in front of one, which will find the mailbox
      full and wait again. */
  lemma StepKeeps(s: State, e: Event, size: nat)
    requires Inv(s, size) && Enabled(s, e, size)
    ensures Inv(Apply(s, e, size), size)
  {
    hide BothServed;
    var messages, room := |s.mails|, size - |s.mails|;
    match e
    case Send(t, value) =>
      SendServed(s.w, messages, room, t);
      WakeReceiverServed(s.w.SenderDone(t), messages, room - 1);
    case Full(t) => SendServed(s.w, messages, room, t);
    case SuspendSender(t, k) => SenderWaitsServed(s.w, messages, t, k);
    case Urgent(value) =>
      BargeServed(s.w, messages, room);
      WakeReceiverServed(s.w, messages, room - 1);
    case Receive(t) =>
      ReceiveServed(s.w, messages, room, t);
      WakeSenderServed(s.w.ReceiverDone(t), messages - 1, room);
    case Empty(t) => ReceiveServed(s.w, messages, room, t);
    case SuspendReceiver(t, k) => ReceiverWaitsServed(s.w, room, t, k);
    case TimedOut(t) => TimedOutServed(s.w, messages, room, t);
    case Reset => AllResumedServed(s.w, messages, room, 0, size);
  }

  lemma BargeServed(w: Sides, messages: nat, room: nat)
    requires BothServed(w, messages, room) && room > 0
    ensures BothServed(w, messages, room - 1)
  {
  }

  ghost predicate Runs(s: State, run: seq<Event>, size: nat)
    decreases |run|
  {
    run == [] || (Enabled(s, run[0], size) && Runs(Apply(s, run[0], size), run[1..], size))
  }

  ghost function After(s: State, run: seq<Event>, size: nat): State
    requires Runs(s, run, size)
    decreases |run|
  {
    if run == [] then s else After(Apply(s, run[0], size), run[1..], size)
  }

  const IDLE: State := State([], Sides([], [], {}, {}))

  /** After any interleaving: the mails fit, and when every woken thread has come back no receiver sleeps beside a
      mail and no sender beside a free cell. */
  lemma RunServes(run: seq<Event>, size: nat)
    requires Runs(IDLE, run, size)
    ensures var s := After(IDLE, run, size);
      && Inv(s, size)
      && (s.w.wokenR == {} && s.w.waitR != [] ==> s.mails == [])
      && (s.w.wokenS == {} && s.w.waitS != [] ==> |s.mails| == size)
  {
    RunKeeps(IDLE, run, size);
  }

  lemma {:induction false} RunKeeps(s: State, run: seq<Event>, size: nat)
    requires Inv(s, size) && Runs(s, run, size)
    ensures Inv(After(s, run, size), size)
    decreases |run|
  {
    hide Inv;
    if run != [] {
      StepKeeps(s, run[0], size);
      RunKeeps(Apply(s, run[0], size), run[1..], size);
    }
  }

  // ---------------------------------------------------------------- what is delivered

  /** The mails behave as a double-ended queue. */
  lemma StepMails(s: State, e: Event, size: nat)
    requires Enabled(s, e, size)
    ensures var m, m' := s.mails, Apply(s, e, size).mails;
            match e
            case Send(_, value) => m' == m + [value]
            case Urgent(value) => m' == [value] + m
            case Receive(_) => m != [] && m == [m[0]] + m'
            case Reset => m' == []
            case _ => m' == m
  {
  }

  /** The values sent in a run, and the mails received. */
  function SentIn(run: seq<Event>): seq<nat> {
    if run == [] then [] else (if run[0].Send? then [run[0].value] else []) + SentIn(run[1..])
  }

  ghost function ReceivedIn(s: State, run: seq<Event>, size: nat): seq<nat>
    requires Runs(s, run, size)
    decreases |run|
  {
    if run == [] then []
    else (if run[0].Receive? && s.mails != [] then [s.mails[0]] else []) + ReceivedIn(Apply(s, run[0], size), run[1..], size)
  }

  /** Without urgent mails and resets, over every interleaving: what has been received, and what is still there, is what was
      there and what has been sent, in that order. */
  lemma {:induction false} FirstSentFirstReceived(s: State, run: seq<Event>, size: nat)
    requires Runs(s, run, size) && forall e :: e in run ==> !e.Urgent? && !e.Reset?
    ensures ReceivedIn(s, run, size) + After(s, run, size).mails == s.mails + SentIn(run)
    decreases |run|
  {
    hide Apply, Enabled;
    if run == [] {
      assert s.mails + [] == s.mails;
    } else {
      StepMails(s, run[0], size);
      var s', rest := Apply(s, run[0], size), run[1..];
      assert forall e :: e in rest ==> e in run;
      FirstSentFirstReceived(s', rest, size);
      var r, a := ReceivedIn(s', rest, size), After(s', rest, size).mails;
      if run[0].Receive? {
        assert [s.mails[0]] + r + a == [s.mails[0]] + (r + a);
        assert [s.mails[0]] + (s'.mails + SentIn(rest)) == s.mails + SentIn(rest);
      } else if run[0].Send? {
        assert s.mails + [run[0].value] + SentIn(rest) == s.mails + ([run[0].value] + SentIn(rest));
        assert [] + r == r;
      } else {
        assert [] + r == r && [] + SentIn(rest) == SentIn(rest);
      }
    }
  }

  // ---------------------------------------------------------------- the ring

  /** Cell i counted round a ring of the given size. */
  function Cell(i: nat, size: nat): (c: nat)
    requires i < 2 * size
    ensures c < size
  {
    if i >= size then i - size else i
  }

  /** The cells from out on hold the mails, and in is the cell behind the last one. */
  ghost predicate Ring(pool: seq<nat>, entry: nat, inAt: nat, outAt: nat, mails: seq<nat>) {
    var size := |pool|;
    var ok :=
      && entry == |mails| <= size
      && (if size == 0 then inAt == outAt == 0 else inAt < size && outAt < size && inAt == Cell(outAt + entry, size))
      && forall i :: 0 <= i < |mails| ==> mails[i] == pool[Cell(outAt + i, size)];
    ok
  }

  function Next(i: nat, size: nat): nat {
    if i + 1 >= size then 0 else i + 1
  }

  function Previous(i: nat, size: nat): nat
    requires size > 0
  {
    if i > 0 then i - 1 else size - 1
  }

  lemma RingSend(pool: seq<nat>, entry: nat, inAt: nat, outAt: nat, mails: seq<nat>, value: nat)
    requires Ring(pool, entry, inAt, outAt, mails) && entry < |pool|
    ensures inAt < |pool| && Ring(pool[inAt := value], entry + 1, Next(inAt, |pool|), outAt, mails + [value])
  {
  }

  lemma RingUrgent(pool: seq<nat>, entry: nat, inAt: nat, outAt: nat, mails: seq<nat>, value: nat)
    requires Ring(pool, entry, inAt, outAt, mails) && entry < |pool|
    ensures var out' := Previous(outAt, |pool|);
            out' < |pool| && Ring(pool[out' := value], entry + 1, inAt, out', [value] + mails)
  {
    var size, out' := |pool|, Previous(outAt, |pool|);
    var r := [value] + mails;
    forall i | 0 <= i < |r|
      ensures r[i] == pool[out' := value][Cell(out' + i, size)]
    {
      if i > 0 {
        assert Cell(out' + i, size) == Cell(outAt + (i - 1), size) != out';
      }
    }
  }

  lemma RingReceive(pool: seq<nat>, entry: nat, inAt: nat, outAt: nat, mails: seq<nat>)
    requires Ring(pool, entry, inAt, outAt, mails) && entry > 0
    ensures outAt < |pool| && pool[outAt] == mails[0]
    ensures Ring(pool, entry - 1, inAt, Next(outAt, |pool|), mails[1..])
  {
    var size, out', r := |pool|, Next(outAt, |pool|), mails[1..];
    forall i | 0 <= i < |r|
      ensures r[i] == pool[Cell(out' + i, size)]
    {
      assert Cell(out' + i, size) == Cell(outAt + (i + 1), size);
    }
  }

  lemma RingCount(pool: seq<nat>, entry: nat, inAt: nat, outAt: nat, mails: seq<nat>)
    requires Ring(pool, entry, inAt, outAt, mails)
    ensures entry == |mails| <= |pool|
  {
  }

  /** How one pass through the loop of a call ends. */
  datatype Outcome = Done | Failed | Suspended

  class Mb {
    const size: nat
    const flag: Flag
    const pool: array<nat>              // msg_pool
    var entry: nat
    var inAt: nat                       // in_offset
    var outAt: nat                      // out_offset
    var waitS: seq<Tid>
    var waitR: seq<Tid>
    ghost var s: State

    ghost predicate Valid()
      reads this, pool
    {
      && pool.Length == size <= ENTRY_MAX && Inv(s, size)
      && Ring(pool[..], entry, inAt, outAt, s.mails)
      && waitS == s.w.waitS && waitR == s.w.waitR
    }

    /** rt_mb_init; size is a 16-bit field. */
    constructor (size: nat, flag: Flag)
      requires size <= ENTRY_MAX
      ensures Valid() && s == IDLE && this.size == size && this.flag == flag && fresh(pool)
    {
      this.size, this.flag := size, flag;
      pool := new nat[size](_ => 0);
      entry, inAt, outAt := 0, 0, 0;
      waitS, waitR := [], [];
      s := IDLE;
    }

    /** One pass of rt_mb_send_wait: sent, or an error if there is no room and no time, or suspended. fits is the
        test of the branch that gives up because the counter would overflow. */
    method SendOnce(t: Tid, value: nat, timeout: int, prio: Tid -> nat) returns (o: Outcome, fits: bool)
      requires Valid() && s.w.AtSend(t)
      modifies pool, this`entry, this`inAt, this`waitS, this`waitR, this`s
      ensures Valid() && fits
      ensures o == if |old(s.mails)| < size then Done else if timeout == 0 then Failed else Suspended
      ensures var e := match o
                       case Done => Send(t, value)
                       case Failed => Full(t)
                       case Suspended => SuspendSender(t, Place(old(s.w.waitS), t, flag, prio));
              Enabled(old(s), e, size) && s == Apply(old(s), e, size)
    {
      hide BothServed, Ring, InsertAt;
      fits := true;
      RingCount(pool[..], entry, inAt, outAt, s.mails);
      ghost var e := Full(t);
      if entry == size {
        o := if timeout == 0 then Failed else Suspended;
        if timeout != 0 {
          var r, k := Suspend(waitS, t, flag, prio);
          e := SuspendSender(t, k);
          waitS := r;
        }
      } else {
        RingSend(pool[..], entry, inAt, outAt, s.mails, value);
        e := Send(t, value);
        ghost var was := pool[..];
        pool[inAt] := value;
        assert pool[..] == was[inAt := value];
        inAt := inAt + 1;
        if inAt >= size {
          inAt := 0;
        }
        fits := entry < ENTRY_MAX;
        if fits {
          entry := entry + 1;
          waitR := Rest(waitR);
        }
        o := Done;
      }
      StepKeeps(s, e, size);
      s := Apply(s, e, size);
    }

    /** rt_mb_urgent. */
    method SendUrgent(value: nat) returns (ok: bool)
      requires Valid()
      modifies pool, this`entry, this`outAt, this`waitR, this`s
      ensures Valid() && (ok <==> |old(s.mails)| < size)
      ensures if ok then Enabled(old(s), Urgent(value), size) && s == Apply(old(s), Urgent(value), size) else s == old(s)
    {
      hide BothServed, Ring, WokenToo;
      RingCount(pool[..], entry, inAt, outAt, s.mails);
      if entry == size {
        return false;
      }
      RingUrgent(pool[..], entry, inAt, outAt, s.mails, value);
      ghost var was := pool[..];
      if outAt > 0 {
        outAt := outAt - 1;
      } else {
        outAt := size - 1;
      }
      pool[outAt] := value;
      assert pool[..] == was[outAt := value];
      entry := entry + 1;
      waitR := Rest(waitR);
      StepKeeps(s, Urgent(value), size);
      s := Apply(s, Urgent(value), size);
      return true;
    }

    /** One pass of rt_mb_recv. */
    method ReceiveOnce(t: Tid, timeout: int, prio: Tid -> nat) returns (o: Outcome, value: nat)
      requires Valid() && s.w.AtReceive(t)
      modifies this`entry, this`outAt, this`waitS, this`waitR, this`s
      ensures Valid()
      ensures o == if old(s.mails) != [] then Done else if timeout == 0 then Failed else Suspended
      ensures o == Done ==> value == old(s.mails[0])
      ensures var e := match o
                       case Done => Receive(t)
                       case Failed => Empty(t)
                       case Suspended => SuspendReceiver(t, Place(old(s.w.waitR), t, flag, prio));
              Enabled(old(s), e, size) && s == Apply(old(s), e, size)
    {
      hide BothServed, Ring, InsertAt;
      RingCount(pool[..], entry, inAt, outAt, s.mails);
      ghost var e := Empty(t);
      value := 0;
      if entry == 0 {
        o := if timeout == 0 then Failed else Suspended;
        if timeout != 0 {
          var r, k := Suspend(waitR, t, flag, prio);
          e := SuspendReceiver(t, k);
          waitR := r;
        }
      } else {
        RingReceive(pool[..], entry, inAt, outAt, s.mails);
        e := Receive(t);
        value := pool[outAt];
        outAt := outAt + 1;
        if outAt >= size {
          outAt := 0;
        }
        if entry > 0 {
          entry := entry - 1;
        }
        waitS := Rest(waitS);
        o := Done;
      }
      StepKeeps(s, e, size);
      s := Apply(s, e, size);
    }

    method TimeOutThread(t: Tid)
      requires Valid() && !s.w.Awake(t)
      modifies this`waitS, this`waitR, this`s
      ensures Valid() && Enabled(old(s), TimedOut(t), size) && s == Apply(old(s), TimedOut(t), size)
    {
      hide BothServed, Ring, Without;
      StepKeeps(s, TimedOut(t), size);
      waitS, waitR := Without(waitS, t), Without(waitR, t);
      s := Apply(s, TimedOut(t), size);
    }

    /** RT_IPC_CMD_RESET. */
    method ResetAll()
      requires Valid()
      modifies this`entry, this`inAt, this`outAt, this`waitS, this`waitR, this`s
      ensures Valid() && Enabled(old(s), Reset, size) && s == Apply(old(s), Reset, size)
    {
      hide BothServed;
      StepKeeps(s, Reset, size);
      waitS, waitR := [], [];
      entry, inAt, outAt := 0, 0, 0;
      s := Apply(s, Reset, size);
    }
  }
}
