/** Mutexes with priority inheritance (src/ipc.c:122-169, 914-1198). */
module Mutex {
  import opened Basics
  import opened Lists
  import opened Waiting

  const HOLD_MAX: nat := 255              // RT_MUTEX_HOLD_MAX
  const VALUE_MAX: nat := 0xFFFF          // RT_MUTEX_VALUE_MAX

  /** The fields of a mutex at one moment. */
  datatype Rec = Rec(value: nat, original: nat, hold: nat, owner: Option<Tid>, wait: seq<Tid>)

  /** How a call ends: taken, an error, or suspended. */
  datatype Outcome = Taken | Overflow | TimedOut | Suspended

  /** current_priority, out of the table of all threads; a smaller number is more urgent. */
  function PrioOf(prio: seq<nat>): Tid -> nat {
    (t: Tid) => if t < |prio| then prio[t] else 0
  }

  ghost predicate Member(r: Rec, t: Tid) {
    r.owner == Some(t) || t in r.wait
  }

  // ---------------------------------------------------------------- the steps

  /** rt_mutex_take by t, for a thread that is not suspended on the mutex. */
  function Take(r: Rec, prio: seq<nat>, t: Tid, timeout: int): (Rec, seq<nat>, Outcome)
  {
    if r.owner == Some(t) then
      if r.hold < HOLD_MAX then (r.(hold := r.hold + 1), prio, Taken) else (r, prio, Overflow)
    else if r.value > 0 then
      var r1 := r.(value := r.value - 1, owner := Some(t), original := PrioOf(prio)(t));
      if r.hold < HOLD_MAX then (r1.(hold := r.hold + 1), prio, Taken) else (r1, prio, Overflow)
    else if timeout == 0 then (r, prio, TimedOut)
    else
      var prio1 := if r.owner.Some? then Raised(prio, r.owner.value, PrioOf(prio)(t)) else prio;
      (r.(wait := InsertAt(r.wait, Place(r.wait, t, Prio, PrioOf(prio1)), t)), prio1, Suspended)
  }

  /** The owner inherits the priority of a more urgent waiter. */
  function Raised(prio: seq<nat>, owner: Tid, p: nat): (r: seq<nat>)
    ensures |r| == |prio| && forall x: Tid :: x < |prio| && x != owner ==> r[x] == prio[x]
    ensures owner < |prio| ==> r[owner] <= prio[owner] && r[owner] <= p && (r[owner] == prio[owner] || r[owner] == p)
  {
    if owner < |prio| && p < prio[owner] then prio[owner := p] else prio
  }

  function Restored(prio: seq<nat>, owner: Tid, p: nat): (r: seq<nat>)
    ensures |r| == |prio| && forall x: Tid :: x < |prio| && x != owner ==> r[x] == prio[x]
  {
    if owner < |prio| then prio[owner := p] else prio
  }

  /** rt_mutex_release by t; false is the error for a thread that is not the owner. */
  function Release(r: Rec, prio: seq<nat>, t: Tid): (Rec, seq<nat>, bool) {
    if r.owner != Some(t) || r.hold == 0 then (r, prio, false)
    else if r.hold > 1 then (r.(hold := r.hold - 1), prio, true)
    else
      var prio1 := Restored(prio, t, r.original);
      if r.wait != [] then
        var next := r.wait[0];
        (r.(owner := Some(next), original := PrioOf(prio1)(next), hold := 1, wait := r.wait[1..]), prio1, true)
      else (Rec(r.value + 1, 0xFF, 0, None, []), prio1, true)
  }

  // ---------------------------------------------------------------- one mutex

  /** value is 1 if and only if there is no owner if and only if hold is 0; waiters imply an owner and are kept in
      order of priority; the owner is at least as urgent as each of them and as it was when it took the mutex, and
      the mutex remembers that priority. */
  ghost predicate Ok(r: Rec, prio: seq<nat>, base: seq<nat>) {
    && |prio| == |base|
    && (r.value == 1 <==> r.owner.None?) && (r.hold == 0 <==> r.owner.None?) && r.value <= 1 && r.hold <= HOLD_MAX
    && (r.wait != [] ==> r.owner.Some?)
    && (r.owner.Some? ==>
          var o := r.owner.value;
          o < |prio| && o !in r.wait && r.original == base[o] && prio[o] <= base[o]
          && forall t: Tid :: t in r.wait ==> t < |prio| && prio[t] == base[t] && prio[o] <= prio[t])
    && NoRepeats(r.wait) && InOrder(r.wait, PrioOf(prio))
  }

  /** Priorities of other threads do not matter. */
  lemma OkFrame(r: Rec, prio: seq<nat>, prio': seq<nat>, base: seq<nat>)
    requires Ok(r, prio, base) && |prio'| == |prio|
    requires forall t: Tid :: Member(r, t) && t < |prio| ==> prio'[t] == prio[t]
    ensures Ok(r, prio', base)
  {
    hide NoRepeats, InOrder;
    OrderStays(r.wait, prio, prio');
  }

  /** Order among threads whose priorities do not change. */
  lemma OrderStays(q: seq<Tid>, prio: seq<nat>, prio': seq<nat>)
    requires InOrder(q, PrioOf(prio)) && |prio'| == |prio|
    requires forall t: Tid :: t in q && t < |prio| ==> prio'[t] == prio[t]
    ensures InOrder(q, PrioOf(prio'))
  {
    forall i, j | 0 <= i < j < |q|
      ensures PrioOf(prio')(q[i]) <= PrioOf(prio')(q[j])
    {
      assert PrioOf(prio)(q[i]) <= PrioOf(prio)(q[j]);
      assert q[i] in q && q[j] in q;
    }
  }

  lemma TakeOk(r: Rec, prio: seq<nat>, base: seq<nat>, t: Tid, timeout: int)
    requires Ok(r, prio, base) && t < |prio| && t !in r.wait && (r.owner != Some(t) ==> prio[t] == base[t])
    ensures var (r', prio', o) := Take(r, prio, t, timeout);
      && |prio'| == |prio| && Ok(r', prio', base)
      && (forall x: Tid :: Member(r', x) <==> Member(r, x) || (x == t && (o == Taken || o == Suspended)))
      && (forall x: Tid :: x < |prio| && prio'[x] != prio[x] ==> r.owner == Some(x))
      && (r.owner.Some? ==> r'.owner == r.owner)
  {
    hide NoRepeats, InOrder, InsertAt, Place;
    var (r', prio', o) := Take(r, prio, t, timeout);
    if r.owner != Some(t) && r.value == 0 && timeout != 0 {
      QueueOk(r, prio, base, t);
      var k := Place(r.wait, t, Prio, PrioOf(prio'));
      InsertAtPoints(r.wait, k, t);
    } else if r.owner.None? {
      EmptyOk(prio');
    }
  }

  lemma EmptyOk(prio: seq<nat>)
    ensures NoRepeats<Tid>([]) && InOrder([], PrioOf(prio))
  {
  }

  /** The owner is raised first, then the newcomer goes to its place among the waiters. */
  lemma QueueOk(r: Rec, prio: seq<nat>, base: seq<nat>, t: Tid)
    requires Ok(r, prio, base) && t < |prio| && t !in r.wait && r.owner.Some? && r.owner.value != t && prio[t] == base[t]
    ensures var prio' := Raised(prio, r.owner.value, prio[t]);
            Ok(r.(wait := InsertAt(r.wait, Place(r.wait, t, Prio, PrioOf(prio')), t)), prio', base)
  {
    hide InsertAt, Place, NoRepeats, InOrder;
    var prio' := Raised(prio, r.owner.value, prio[t]);
    OrderStays(r.wait, prio, prio');
    PrioKeepsOrder(r.wait, t, PrioOf(prio'));
    var k := Place(r.wait, t, Prio, PrioOf(prio'));
    InsertAtKeeps(r.wait, k, t);
    InsertAtPoints(r.wait, k, t);
  }

  /** The last release gives the owner back the priority it had when it took the mutex, and the mutex to the most
      urgent waiter, the first of them among equals. */
  lemma ReleaseOk(r: Rec, prio: seq<nat>, base: seq<nat>, t: Tid)
    requires Ok(r, prio, base) && r.owner == Some(t)
    ensures var (r', prio', ok) := Release(r, prio, t);
      && ok && |prio'| == |prio| && Ok(r', prio', base)
      && (forall x: Tid :: Member(r', x) <==> Member(r, x) && (x != t || r.hold > 1))
      && (forall x: Tid :: x < |prio| && x != t ==> prio'[x] == prio[x])
      && (r.hold > 1 ==> r'.owner == r.owner) && (r.hold == 1 ==> prio'[t] == base[t])
      && (r.hold == 1 && r.wait != [] ==>
            r'.owner == Some(r.wait[0]) && forall x: Tid :: x in r.wait ==> prio[r.wait[0]] <= prio[x])
  {
    hide NoRepeats, InOrder;
    if r.hold == 1 {
      var prio' := Restored(prio, t, r.original);
      if r.wait != [] {
        FirstMostUrgent(r, prio, base);
        OrderElsewhere(r.wait, prio, prio', t);
        WithoutFirst(r.wait);
        TailInOrder(r.wait, prio');
        assert r.wait == [r.wait[0]] + r.wait[1..];
      } else {
        EmptyOk(prio');
      }
    }
  }

  lemma TailInOrder(wait: seq<Tid>, prio: seq<nat>)
    requires InOrder(wait, PrioOf(prio)) && wait != []
    ensures InOrder(wait[1..], PrioOf(prio))
  {
  }

  lemma FirstMostUrgent(r: Rec, prio: seq<nat>, base: seq<nat>)
    requires Ok(r, prio, base) && r.wait != []
    ensures r.wait[0] < |prio| && forall x: Tid :: x in r.wait ==> x < |prio| && prio[r.wait[0]] <= prio[x]
  {
    assert r.wait[0] in r.wait;
    forall i | 0 <= i < |r.wait|
      ensures r.wait[i] < |prio| && prio[r.wait[0]] <= prio[r.wait[i]]
    {
      assert r.wait[i] in r.wait;
      assert i > 0 ==> PrioOf(prio)(r.wait[0]) <= PrioOf(prio)(r.wait[i]);
    }
  }

  lemma OrderElsewhere(wait: seq<Tid>, prio: seq<nat>, prio': seq<nat>, t: Tid)
    requires InOrder(wait, PrioOf(prio)) && t !in wait && |prio'| == |prio|
    requires forall x: Tid :: x < |prio| && x != t ==> prio'[x] == prio[x]
    ensures InOrder(wait, PrioOf(prio'))
  {
    forall i, j | 0 <= i < j < |wait|
      ensures PrioOf(prio')(wait[i]) <= PrioOf(prio')(wait[j])
    {
      assert PrioOf(prio)(wait[i]) <= PrioOf(prio)(wait[j]);
    }
  }

  lemma TimeOutOk(r: Rec, prio: seq<nat>, base: seq<nat>, t: Tid)
    requires Ok(r, prio, base) && t in r.wait
    ensures Ok(r.(wait := Without(r.wait, t)), prio, base)
  {
    WithoutKeeps(r.wait, t);
    WithoutOrder(r.wait, t, PrioOf(prio));
    hide NoRepeats, InOrder, Without;
  }

  /** With two mutexes held at once the priority is not always given back: a thread of priority 10 that is raised to 5
      while it holds the first mutex takes a second one, and after it has released both it is left at 5. */
  lemma NestedNotRestored(a: Rec, b: Rec)
    requires a == b == Rec(1, 0xFF, 0, None, [])
    ensures var prio0 := [10, 5];
      var (a1, prio1, o1) := Take(a, prio0, 0, -1);
      var (a2, prio2, o2) := Take(a1, prio1, 1, -1);
      var (b1, prio3, o3) := Take(b, prio2, 0, -1);
      var (a3, prio4, ok4) := Release(a2, prio3, 0);
      var (b2, prio5, ok5) := Release(b1, prio4, 0);
      && o1 == o3 == Taken && o2 == Suspended && ok4 && ok5
      && a3.owner != Some(0) && b2.owner == None && prio0[0] == 10 && prio5 == [5, 5]
  {
  }

  // ---------------------------------------------------------------- runs with any nesting

  /** Any number of mutexes, of which a thread may hold and wait for as many as it likes. */
  datatype World = World(recs: seq<Rec>, prio: seq<nat>)

  datatype Event =
    | TakeBy(m: nat, t: Tid, timeout: int)
    | ReleaseBy(m: nat, t: Tid)
    | Expires(m: nat, t: Tid)               // _thread_timeout of a waiter
    | Change(t: Tid, p: nat)                // rt_thread_control, by anybody

  ghost predicate Enabled(w: World, e: Event) {
    match e
    case TakeBy(m, t, _) => m < |w.recs| && t < |w.prio| && t !in w.recs[m].wait
    case ReleaseBy(m, t) => m < |w.recs| && t < |w.prio| && t !in w.recs[m].wait
    case Expires(m, t) => m < |w.recs| && t in w.recs[m].wait
    case Change(t, _) => t < |w.prio|
  }

  ghost function Apply(w: World, e: Event): World
    requires Enabled(w, e)
  {
    match e
    case TakeBy(m, t, timeout) => var (r, prio, _) := Take(w.recs[m], w.prio, t, timeout); World(w.recs[m := r], prio)
    case ReleaseBy(m, t) => var (r, prio, _) := Release(w.recs[m], w.prio, t); World(w.recs[m := r], prio)
    case Expires(m, t) => w.(recs := w.recs[m := w.recs[m].(wait := Without(w.recs[m].wait, t))])
    case Change(t, p) => w.(prio := w.prio[t := p])
  }

  /** What every mutex keeps even so: there is an owner as long as somebody waits, and all of them are threads. */
  ghost predicate Sound(w: World) {
    forall m: nat :: m < |w.recs| ==> RecSound(w.recs[m], |w.prio|)
  }

  ghost predicate RecSound(r: Rec, n: nat) {
    && (r.owner.None? ==> r.value == 1 && r.hold == 0 && r.wait == [])
    && (r.owner.Some? ==> r.value == 0 && r.hold >= 1 && r.owner.value < n)
    && forall t: Tid :: t in r.wait ==> t < n
  }

  lemma TakeSound(r: Rec, prio: seq<nat>, t: Tid, timeout: int)
    requires RecSound(r, |prio|) && t < |prio|
    ensures var (r', prio', _) := Take(r, prio, t, timeout); |prio'| == |prio| && RecSound(r', |prio|)
  {
    hide InsertAt, Place;
    forall k: nat | k <= |r.wait|
      ensures forall x: Tid :: x in InsertAt(r.wait, k, t) <==> x in r.wait || x == t
    {
      InsertAtPoints(r.wait, k, t);
    }
  }

  lemma ReleaseSound(r: Rec, prio: seq<nat>, t: Tid)
    requires RecSound(r, |prio|) && t < |prio|
    ensures var (r', prio', _) := Release(r, prio, t); |prio'| == |prio| && RecSound(r', |prio|)
  {
    if r.wait != [] {
      assert r.wait[0] in r.wait;
      assert forall x: Tid :: x in r.wait[1..] ==> x in r.wait;
    }
  }

  lemma StepSound(w: World, e: Event)
    requires Sound(w) && Enabled(w, e)
    ensures Sound(Apply(w, e)) && |Apply(w, e).recs| == |w.recs| && |Apply(w, e).prio| == |w.prio|
  {
    hide Take, Release, RecSound;
    match e
    case TakeBy(m, t, timeout) =>
      TakeSound(w.recs[m], w.prio, t, timeout);
    case ReleaseBy(m, t) =>
      ReleaseSound(w.recs[m], w.prio, t);
    case Expires(m, t) =>
      ExpireSound(w.recs[m], |w.prio|, t);
    case Change(_, _) =>
  }

  lemma ExpireSound(r: Rec, n: nat, t: Tid)
    requires RecSound(r, n)
    ensures RecSound(r.(wait := Without(r.wait, t)), n)
  {
  }

  ghost predicate Holds(w: World, m: nat, t: Tid) {
    m < |w.recs| && w.recs[m].owner == Some(t)
  }

  /** The release after which t does not hold m any more. */
  ghost predicate Leaves(w: World, e: Event, m: nat, t: Tid) {
    e == ReleaseBy(m, t) && m < |w.recs| && w.recs[m].hold == 1
  }

  /** t becomes the owner of m: it takes it, or is handed it by the release of another thread. */
  ghost predicate Gains(w: World, e: Event, m: nat, t: Tid) {
    Enabled(w, e) && !Holds(w, m, t) && Holds(Apply(w, e), m, t)
  }

  /** The mutex records the priority its new owner has at that moment, inherited or not, and changes none but its old
      owner's. */
  lemma GainRecords(w: World, e: Event, m: nat, t: Tid)
    requires Sound(w) && Gains(w, e, m, t)
    ensures t < |w.prio| && |Apply(w, e).prio| == |w.prio|
    ensures Apply(w, e).recs[m].original == Apply(w, e).prio[t] == w.prio[t]
  {
    hide InsertAt, Place;
    assert RecSound(w.recs[m], |w.prio|);
    if e.ReleaseBy? {
      var r := w.recs[e.m];
      assert r.wait != [] ==> r.wait[0] in r.wait;
    }
  }

  /** As long as t does not give m up, nothing that anybody does to this or any other mutex, or to priorities, changes
      what m has recorded. */
  lemma RecordStays(w: World, e: Event, m: nat, t: Tid)
    requires Sound(w) && Enabled(w, e) && Holds(w, m, t) && !Leaves(w, e, m, t)
    ensures Holds(Apply(w, e), m, t) && Apply(w, e).recs[m].original == w.recs[m].original
  {
    hide InsertAt, Place;
    assert RecSound(w.recs[m], |w.prio|);
  }

  /** The steps of a run can happen one after the other, and none of them is t's last release of m. */
  ghost predicate Keeps(w: World, run: seq<Event>, m: nat, t: Tid)
    decreases |run|
  {
    run == [] || (Enabled(w, run[0]) && !Leaves(w, run[0], m, t) && Keeps(Apply(w, run[0]), run[1..], m, t))
  }

  ghost predicate Runs(w: World, run: seq<Event>)
    decreases |run|
  {
    run == [] || (Enabled(w, run[0]) && Runs(Apply(w, run[0]), run[1..]))
  }

  ghost function After(w: World, run: seq<Event>): World
    requires Runs(w, run)
    decreases |run|
  {
    if run == [] then w else After(Apply(w, run[0]), run[1..])
  }

  lemma {:induction false} RunRecordStays(w: World, run: seq<Event>, m: nat, t: Tid)
    requires Sound(w) && Holds(w, m, t) && Keeps(w, run, m, t)
    ensures Runs(w, run) && Sound(After(w, run)) && |After(w, run).prio| == |w.prio|
    ensures Holds(After(w, run), m, t) && After(w, run).recs[m].original == w.recs[m].original
    decreases |run|
  {
    hide Apply, Leaves, Enabled;
    if run != [] {
      StepSound(w, run[0]);
      RecordStays(w, run[0], m, t);
      RunRecordStays(Apply(w, run[0]), run[1..], m, t);
    }
  }

  /** From the moment t becomes the owner of m to its last release of it, with any takes, releases, timeouts and changes
      of priority in between, of any mutexes by any threads: the release sets t's priority to what it was at that moment.
      So t gets its own priority back if and only if it had that one when it became the owner. */
  lemma RestoredOverRuns(w: World, e: Event, run: seq<Event>, m: nat, t: Tid, own: nat)
    requires Sound(w) && Gains(w, e, m, t) && Keeps(Apply(w, e), run, m, t)
    ensures t < |w.prio| && Runs(Apply(w, e), run)
    ensures var w' := After(Apply(w, e), run);
      Enabled(w', ReleaseBy(m, t)) && Leaves(w', ReleaseBy(m, t), m, t) ==>
        && |Apply(w', ReleaseBy(m, t)).prio| == |w.prio|
        && Apply(w', ReleaseBy(m, t)).prio[t] == w.prio[t]
        && (Apply(w', ReleaseBy(m, t)).prio[t] == own <==> w.prio[t] == own)
  {
    hide Take;
    GainRecords(w, e, m, t);
    StepSound(w, e);
    RunRecordStays(Apply(w, e), run, m, t);
    hide Enabled, Keeps;
  }

  /** t takes m once more, which the counter has room for. */
  ghost predicate TakesAgain(w: World, e: Event, m: nat, t: Tid) {
    e.TakeBy? && e.m == m && e.t == t && m < |w.recs| && w.recs[m].hold < 255
  }

  /** The takes of m by its owner in a run that succeed, and its releases. */
  ghost function Takes(w: World, run: seq<Event>, m: nat, t: Tid): nat
    requires Runs(w, run)
    decreases |run|
  {
    if run == [] then 0 else (if TakesAgain(w, run[0], m, t) then 1 else 0) + Takes(Apply(w, run[0]), run[1..], m, t)
  }

  function Releases(run: seq<Event>, m: nat, t: Tid): nat {
    if run == [] then 0 else (if run[0] == ReleaseBy(m, t) then 1 else 0) + Releases(run[1..], m, t)
  }

  /** Taking a mutex once more counts one up, releasing it one down, unless it is the last release, and nothing else that
      happens counts. */
  lemma StepCounts(w: World, e: Event, m: nat, t: Tid)
    requires Sound(w) && Enabled(w, e) && Holds(w, m, t) && !Leaves(w, e, m, t)
    ensures m < |Apply(w, e).recs|
    ensures Apply(w, e).recs[m].hold ==
      w.recs[m].hold + (if TakesAgain(w, e, m, t) then 1 else 0) - (if e == ReleaseBy(m, t) then 1 else 0)
  {
    hide InsertAt, Place;
    assert RecSound(w.recs[m], |w.prio|);
  }

  lemma {:induction false} RunCounts(w: World, run: seq<Event>, m: nat, t: Tid)
    requires Sound(w) && Holds(w, m, t) && Keeps(w, run, m, t)
    ensures Runs(w, run) && m < |After(w, run).recs|
    ensures After(w, run).recs[m].hold == w.recs[m].hold + Takes(w, run, m, t) - Releases(run, m, t)
    decreases |run|
  {
    hide Apply, Leaves, Enabled, TakesAgain;
    if run != [] {
      StepSound(w, run[0]);
      RecordStays(w, run[0], m, t);
      StepCounts(w, run[0], m, t);
      RunCounts(Apply(w, run[0]), run[1..], m, t);
    }
  }

  /** From the moment t becomes the owner, whatever happens in between: as long as it has taken the mutex more often than it
      has released it, a release keeps it the owner; the release that makes up for the last take hands the mutex to the
      first waiter, or leaves it free. */
  lemma LastReleaseHandsOn(w: World, e: Event, run: seq<Event>, m: nat, t: Tid)
    requires Sound(w) && Gains(w, e, m, t) && Keeps(Apply(w, e), run, m, t)
    ensures Runs(Apply(w, e), run)
    ensures var w' := After(Apply(w, e), run);
      var more := Takes(Apply(w, e), run, m, t) > Releases(run, m, t);
      m < |w'.recs| && (Enabled(w', ReleaseBy(m, t)) ==>
        var w'' := Apply(w', ReleaseBy(m, t));
        && m < |w''.recs|
        && w''.recs[m].owner == if more then Some(t) else if w'.recs[m].wait == [] then None else Some(w'.recs[m].wait[0]))
  {
    GainCounts(w, e, m, t);
    StepSound(w, e);
    RunCounts(Apply(w, e), run, m, t);
    RunRecordStays(Apply(w, e), run, m, t);
    hide Take, Keeps, Takes, Releases, Sound;
  }

  lemma GainCounts(w: World, e: Event, m: nat, t: Tid)
    requires Sound(w) && Gains(w, e, m, t)
    ensures m < |Apply(w, e).recs| && Apply(w, e).recs[m].hold == 1
  {
    hide InsertAt, Place;
    assert RecSound(w.recs[m], |w.prio|);
    if e.ReleaseBy? {
      assert w.recs[e.m].wait != [] ==> w.recs[e.m].wait[0] in w.recs[e.m].wait;
    }
  }

  /** Which threads run at a priority that is not their own, as the history of raises tells it: up holds the threads that
      a waiter has raised and no release has set back; saved says of each mutex whether its owner was one of them when it
      became the owner. */
  datatype Raises = Raises(up: set<Tid>, saved: seq<bool>)

  ghost function Follow(w: World, e: Event, h: Raises): Raises
    requires Enabled(w, e) && |h.saved| == |w.recs|
  {
    match e
    case TakeBy(m, t, timeout) =>
      var r := w.recs[m];
      if r.owner == Some(t) then h
      else if r.owner.None? then h.(saved := h.saved[m := t in h.up])
      else if timeout != 0 && r.owner.value < |w.prio| && w.prio[t] < w.prio[r.owner.value] then h.(up := h.up + {r.owner.value})
      else h
    case ReleaseBy(m, t) =>
      var r := w.recs[m];
      if r.owner != Some(t) || r.hold != 1 then h
      else
        var up := if h.saved[m] then h.up + {t} else h.up - {t};
        Raises(up, h.saved[m := r.wait != [] && r.wait[0] in up])
    case _ => h
  }

  /** No priority is below the thread's own; it is above it exactly for the threads in up, and a mutex has recorded an
      inherited priority exactly if it says so. */
  ghost predicate Told(w: World, h: Raises, base: seq<nat>) {
    && |base| == |w.prio| && |h.saved| == |w.recs|
    && (forall x: Tid :: x < |base| ==> w.prio[x] <= base[x] && (x in h.up <==> w.prio[x] != base[x]))
    && (forall m: nat :: m < |w.recs| && w.recs[m].owner.Some? && w.recs[m].owner.value < |base| ==>
          var o := w.recs[m].owner.value; w.recs[m].original <= base[o] && (h.saved[m] <==> w.recs[m].original != base[o]))
  }

  lemma StepTold(w: World, e: Event, h: Raises, base: seq<nat>)
    requires Sound(w) && Enabled(w, e) && !e.Change? && Told(w, h, base)
    ensures Told(Apply(w, e), Follow(w, e, h), base)
  {
    hide InsertAt, Place;
    if e.TakeBy? || e.ReleaseBy? {
      var r := w.recs[e.m];
      assert RecSound(r, |w.prio|);
      assert r.wait != [] ==> r.wait[0] in r.wait;
    }
  }

  ghost function History(w: World, run: seq<Event>, h: Raises): (r: Raises)
    requires Runs(w, run) && |h.saved| == |w.recs|
    ensures |r.saved| == |w.recs|
    decreases |run|
  {
    if run == [] then h else History(Apply(w, run[0]), run[1..], Follow(w, run[0], h))
  }

  lemma {:induction false} RunTold(w: World, run: seq<Event>, h: Raises, base: seq<nat>)
    requires Sound(w) && Runs(w, run) && (forall e :: e in run ==> !e.Change?) && Told(w, h, base)
    ensures Sound(After(w, run)) && Told(After(w, run), History(w, run, h), base)
    decreases |run|
  {
    hide Apply, Follow, Enabled, Told;
    if run != [] {
      StepSound(w, run[0]);
      assert |h.saved| == |w.recs| by {
        ToldLength(w, h, base);
      }
      StepTold(w, run[0], h, base);
      RunTold(Apply(w, run[0]), run[1..], Follow(w, run[0], h), base);
    }
  }

  lemma ToldLength(w: World, h: Raises, base: seq<nat>)
    requires Told(w, h, base)
    ensures |h.saved| == |w.recs| && |base| == |w.prio|
  {
  }

  /** Without outside changes of priority, from free mutexes and threads at their own priority: t is back at its own after
      its last release of m if and only if no waiter on another mutex had raised it, and had not been made up for, when t
      became the owner of m. */
  lemma RestoredUnlessRaised(w0: World, before: seq<Event>, e: Event, run: seq<Event>, m: nat, t: Tid)
    requires forall k: nat :: k < |w0.recs| ==> w0.recs[k] == Rec(1, 0xFF, 0, None, [])
    requires Runs(w0, before) && forall x :: x in before ==> !x.Change?
    requires Gains(After(w0, before), e, m, t) && Keeps(Apply(After(w0, before), e), run, m, t)
    ensures t < |w0.prio| && Runs(Apply(After(w0, before), e), run)
    ensures var w' := After(Apply(After(w0, before), e), run);
      Enabled(w', ReleaseBy(m, t)) && Leaves(w', ReleaseBy(m, t), m, t) ==>
        && |Apply(w', ReleaseBy(m, t)).prio| == |w0.prio|
        && (Apply(w', ReleaseBy(m, t)).prio[t] == w0.prio[t]
            <==> t !in History(w0, before, Raises({}, seq(|w0.recs|, _ => false))).up)
  {
    hide Apply, Follow, Enabled, Leaves, Take, Gains, Keeps;
    var h := Raises({}, seq(|w0.recs|, _ => false));
    RunTold(w0, before, h, w0.prio);
    ToldLength(After(w0, before), History(w0, before, h), w0.prio);
    GainRecords(After(w0, before), e, m, t);
    RestoredOverRuns(After(w0, before), e, run, m, t, w0.prio[t]);
  }

  // ---------------------------------------------------------------- all the mutexes

  class Mutex {
    var value: nat
    var original: nat                   // original_priority
    var hold: nat
    var owner: Option<Tid>
    var wait: seq<Tid>                  // suspend_thread, always RT_IPC_FLAG_PRIO

    /** rt_mutex_init. */
    constructor ()
      ensures Now() == Rec(1, 0xFF, 0, None, [])
    {
      value, original, hold, owner, wait := 1, 0xFF, 0, None, [];
    }

    ghost function Now(): Rec
      reads this
    {
      Rec(value, original, hold, owner, wait)
    }
  }

  /** Each mutex is in order, a thread holds or waits for no more than one, and a thread that holds none has its own
      priority. */
  ghost predicate AllOk(all: map<Mutex, Rec>, prio: seq<nat>, base: seq<nat>) {
    && |prio| == |base|
    && (forall m: Mutex :: m in all ==> Ok(all[m], prio, base))
    && (forall m: Mutex, n: Mutex, t: Tid :: m in all && n in all && Member(all[m], t) && Member(all[n], t) ==> m == n)
    && (forall t: Tid :: t < |prio| ==> prio[t] == base[t] || exists m: Mutex :: m in all && all[m].owner == Some(t))
  }

  /** t takes part in no mutex but m. */
  ghost predicate Elsewhere(all: map<Mutex, Rec>, m: Mutex, t: Tid) {
    forall n: Mutex :: n in all && n != m ==> !Member(all[n], t)
  }

  /** A step on one mutex that moves no priority but its owner's leaves all the others in order. */
  lemma AllKeep(all: map<Mutex, Rec>, m: Mutex, r: Rec, prio: seq<nat>, prio': seq<nat>, base: seq<nat>, t: Tid)
    requires AllOk(all, prio, base) && m in all && |prio'| == |prio| && Ok(r, prio', base) && Elsewhere(all, m, t)
    requires forall x: Tid :: x < |prio| && prio'[x] != prio[x] ==> all[m].owner == Some(x)
    requires forall x: Tid :: Member(r, x) ==> Member(all[m], x) || x == t
    requires all[m].owner.Some? && r.owner != all[m].owner ==>
               var o := all[m].owner.value; o < |prio| && prio'[o] == base[o]
    ensures AllOk(all[m := r], prio', base)
  {
    hide Ok;
    var all' := all[m := r];
    forall n: Mutex | n in all && n != m
      ensures Ok(all[n], prio', base)
    {
      OkFrame(all[n], prio, prio', base);
    }
    forall x: Tid | x < |prio|
      ensures prio'[x] == base[x] || exists n: Mutex :: n in all' && all'[n].owner == Some(x)
    {
      if prio'[x] != base[x] {
        if prio[x] == base[x] {
          assert all'[m].owner == Some(x);
        } else {
          var n: Mutex :| n in all && all[n].owner == Some(x);
          assert n in all' && all'[n].owner == Some(x);
        }
      }
    }
  }

  lemma MemberElsewhere(all: map<Mutex, Rec>, prio: seq<nat>, base: seq<nat>, m: Mutex, t: Tid)
    requires AllOk(all, prio, base) && m in all && Member(all[m], t)
    ensures Elsewhere(all, m, t)
  {
    hide Ok;
  }

  lemma OwnPriority(all: map<Mutex, Rec>, prio: seq<nat>, base: seq<nat>, m: Mutex, t: Tid)
    requires AllOk(all, prio, base) && m in all && t < |prio| && Elsewhere(all, m, t)
    ensures all[m].owner != Some(t) ==> prio[t] == base[t]
  {
    hide Ok;
  }

  lemma AllOkWith(all: map<Mutex, Rec>, prio: seq<nat>, base: seq<nat>, m: Mutex)
    requires AllOk(all, prio, base) && m !in all
    ensures AllOk(all[m := Rec(1, 0xFF, 0, None, [])], prio, base)
  {
    var all' := all[m := Rec(1, 0xFF, 0, None, [])];
    EmptyOk(prio);
    hide InOrder, NoRepeats;
    forall t: Tid | t < |prio|
      ensures prio[t] == base[t] || exists n: Mutex :: n in all' && all'[n].owner == Some(t)
    {
      if prio[t] != base[t] {
        var n: Mutex :| n in all && all[n].owner == Some(t);
        assert n in all' && all'[n].owner == Some(t);
      }
    }
  }

  /** The threads and the mutexes they use; each thread holds or waits for no more than one of them at a time. */
  class Kernel {
    var prio: seq<nat>                  // current_priority of each thread
    ghost var base: seq<nat>            // the priority each was given
    ghost var mutexes: set<Mutex>

    ghost predicate Valid()
      reads this, mutexes
    {
      AllOk(Snapshot(), prio, base)
    }

    ghost function Snapshot(): map<Mutex, Rec>
      reads this, mutexes
    {
      map m | m in mutexes :: m.Now()
    }

    constructor (prio: seq<nat>)
      ensures Valid() && this.prio == base == prio && mutexes == {}
    {
      this.prio, base, mutexes := prio, prio, {};
    }

    method NewMutex() returns (m: Mutex)
      requires Valid()
      modifies this`mutexes
      ensures Valid() && fresh(m) && mutexes == old(mutexes) + {m} && m.Now() == Rec(1, 0xFF, 0, None, [])
    {
      hide AllOk;
      m := new Mutex();
      AllOkWith(Snapshot(), prio, base, m);
      mutexes := mutexes + {m};
      assert Snapshot() == old(Snapshot())[m := m.Now()];
    }

    lemma OneOf(m: Mutex)
      requires Valid() && m in mutexes
      ensures m in Snapshot() && Snapshot()[m] == m.Now() && Ok(m.Now(), prio, base) && |prio| == |base|
    {
      hide Ok;
      assert m in Snapshot();
    }

    /** t holds and waits for no mutex but m. */
    ghost predicate NowhereElse(m: Mutex, t: Tid)
      reads this, mutexes
    {
      Elsewhere(Snapshot(), m, t)
    }

    /** rt_mutex_take. */
    method TakeMutex(m: Mutex, t: Tid, timeout: int) returns (o: Outcome)
      requires Valid() && m in mutexes && t < |prio| && t !in m.wait && NowhereElse(m, t)
      modifies m, this`prio
      ensures Valid() && (m.Now(), prio, o) == Take(old(m.Now()), old(prio), t, timeout)
    {
      hide Ok, Take, AllOk, Elsewhere;
      OneOf(m);
      OwnPriority(Snapshot(), prio, base, m, t);
      TakeOk(m.Now(), prio, base, t, timeout);
      OwnerThere(m.Now(), prio, base);
      ghost var (r1, prio1, o1) := Take(m.Now(), prio, t, timeout);
      o := TakeFields(m, t, timeout);
      assert m.Now() == r1 && prio == prio1;
      assert Snapshot() == old(Snapshot())[m := m.Now()];
      AllKeep(old(Snapshot()), m, m.Now(), old(prio), prio, base, t);
    }

    method TakeFields(m: Mutex, t: Tid, timeout: int) returns (o: Outcome)
      requires t < |prio| && (m.value == 0 ==> m.owner.Some? && m.owner.value < |prio|)
      modifies m, this`prio
      ensures (m.Now(), prio, o) == Take(old(m.Now()), old(prio), t, timeout)
    {
      hide InsertAt, Place;
      o := Taken;
      if m.owner == Some(t) {
        if m.hold < HOLD_MAX {
          m.hold := m.hold + 1;
        } else {
          o := Overflow;
        }
      } else if m.value > 0 {
        m.value := m.value - 1;
        m.owner := Some(t);
        m.original := PrioOf(prio)(t);
        if m.hold < HOLD_MAX {
          m.hold := m.hold + 1;
        } else {
          o := Overflow;
        }
      } else if timeout == 0 {
        o := TimedOut;
      } else {
        if prio[t] < prio[m.owner.value] {
          prio := prio[m.owner.value := prio[t]];
        }
        var r, k := Suspend(m.wait, t, Prio, PrioOf(prio));
        m.wait := r;
        o := Suspended;
      }
    }

    /** rt_mutex_release. */
    method ReleaseMutex(m: Mutex, t: Tid) returns (ok: bool)
      requires Valid() && m in mutexes && t < |prio| && t !in m.wait
      modifies m, this`prio
      ensures Valid() && (m.Now(), prio, ok) == Release(old(m.Now()), old(prio), t)
      ensures ok == (old(m.owner) == Some(t))
      ensures ok && old(m.hold) == 1 ==> prio[t] == base[t]
    {
      hide Ok, Release, AllOk, Elsewhere;
      OneOf(m);
      HoldThere(m.Now(), prio, base);
      ok := ReleaseFields(m, t);
      if ok {
        ReleaseOk(old(m.Now()), old(prio), base, t);
        MemberElsewhere(old(Snapshot()), old(prio), base, m, t);
        ghost var (r1, prio1, ok1) := Release(old(m.Now()), old(prio), t);
        assert m.Now() == r1 && prio == prio1;
        assert Snapshot() == old(Snapshot())[m := m.Now()];
        AllKeep(old(Snapshot()), m, m.Now(), old(prio), prio, base, t);
      } else {
        assert Snapshot() == old(Snapshot());
      }
    }

    method ReleaseFields(m: Mutex, t: Tid) returns (ok: bool)
      requires t < |prio| && t !in m.wait && (m.owner == Some(t) ==> m.hold >= 1 && m.value == 0)
      modifies m, this`prio
      ensures (m.Now(), prio, ok) == Release(old(m.Now()), old(prio), t)
      ensures ok == (old(m.owner) == Some(t)) && (!ok ==> m.Now() == old(m.Now()) && prio == old(prio))
    {
      if m.owner != Some(t) {
        return false;
      }
      m.hold := m.hold - 1;
      if m.hold == 0 {
        if m.original != prio[t] {
          prio := prio[t := m.original];
        }
        assert prio == Restored(old(prio), t, m.original);
        if m.wait != [] {
          var next := m.wait[0];
          m.owner := Some(next);
          m.original := PrioOf(prio)(next);
          if m.hold < HOLD_MAX {
            m.hold := m.hold + 1;
          }
          m.wait := m.wait[1..];
        } else {
          if m.value < VALUE_MAX {
            m.value := m.value + 1;
          }
          m.owner := None;
          m.original := 0xFF;
        }
      }
      return true;
    }

    /** _thread_timeout for a thread suspended on m: the owner keeps what it has inherited. */
    method TimeOutThread(m: Mutex, t: Tid)
      requires Valid() && m in mutexes && t in m.wait
      modifies m`wait
      ensures Valid() && m.wait == Without(old(m.wait), t)
    {
      hide Ok, AllOk, Elsewhere;
      OneOf(m);
      MemberElsewhere(Snapshot(), prio, base, m, t);
      TimeOutOk(m.Now(), prio, base, t);
      m.wait := Without(m.wait, t);
      assert Snapshot() == old(Snapshot())[m := m.Now()];
      AllKeep(old(Snapshot()), m, m.Now(), old(prio), prio, base, t);
    }
  }

  lemma OwnerThere(r: Rec, prio: seq<nat>, base: seq<nat>)
    requires Ok(r, prio, base)
    ensures r.value == 0 ==> r.owner.Some? && r.owner.value < |prio|
  {
  }

  lemma HoldThere(r: Rec, prio: seq<nat>, base: seq<nat>)
    requires Ok(r, prio, base)
    ensures r.owner.Some? ==> r.hold >= 1 && r.value == 0 && r.owner.value < |prio|
  {
  }
}
