/** The timer skip list (src/timer.c): several rows of list links, ordered by 32-bit ticks that wrap.

    The claims are about true deadlines, counted without wrapping from the start of the system. */
module Timer {
  import opened Align
  import opened Lists

  type Id = nat

  const TICKS: nat := 0x1_0000_0000
  const HALF: nat := 0x7FFF_FFFF          // RT_TICK_MAX / 2

  /** Subtraction of two 32-bit ticks. */
  function Diff(a: int, b: int): nat { (a - b) % TICKS }

  /** What the insertion loop takes for "t is due later than the timer being started". */
  predicate Later(t: int, timer: int) { 0 < Diff(t, timer) < HALF }

  /** What rt_timer_check takes for "t is due". */
  predicate Expired(now: int, t: int) { Diff(now, t) < HALF }

  /** The wrapped comparison agrees with the true order as long as x is less than HALF after y and no more than
      HALF + 2 before it; one tick further apart in the first direction it gives the wrong answer. */
  lemma LaterExact(x: nat, y: nat)
    ensures Later(x % TICKS, y % TICKS) <==> 0 < (x - y) % TICKS < HALF
    ensures x - y < HALF && y - x <= HALF + 2 ==> (Later(x % TICKS, y % TICKS) <==> x > y)
    ensures x - y < HALF && y - x <= HALF + 2 ==> (Diff(x % TICKS, y % TICKS) == 0 <==> x == y)
    ensures x - y == HALF || y - x == HALF + 3 ==> (Later(x % TICKS, y % TICKS) <==> x < y)
  {
    assert x == x / TICKS * TICKS + x % TICKS && y == y / TICKS * TICKS + y % TICKS;
    var q := x / TICKS - y / TICKS;
    assert x - y == q * TICKS + (x % TICKS - y % TICKS);
  }

  lemma ExpiredExact(now: nat, due: nat)
    requires now - HALF < due < now + HALF
    ensures Expired(now % TICKS, due % TICKS) <==> due <= now
  {
    LaterExact(now, due);
  }

  // ---------------------------------------------------------------- one row

  /** Where a linear scan of the row would stop: the first timer due after d. */
  function Pos(row: seq<Id>, due: map<Id, nat>, d: nat): (k: nat)
    ensures k <= |row|
    ensures forall i :: 0 <= i < k ==> !(row[i] in due && due[row[i]] > d)
    ensures k < |row| ==> row[k] in due && due[row[k]] > d
  {
    if row == [] || (row[0] in due && due[row[0]] > d) then 0 else 1 + Pos(row[1..], due, d)
  }

  ghost predicate Known(row: seq<Id>, due: map<Id, nat>) {
    forall i :: 0 <= i < |row| ==> row[i] in due
  }

  ghost predicate Sorted(row: seq<Id>, due: map<Id, nat>) {
    Known(row, due) && forall i, j :: 0 <= i < j < |row| ==> due[row[i]] <= due[row[j]]
  }

  /** The timers of a row that are at least n rows high. */
  function Pick(row: seq<Id>, height: map<Id, nat>, n: nat): seq<Id> {
    if row == [] then []
    else if row[0] in height && height[row[0]] >= n then [row[0]] + Pick(row[1..], height, n)
    else Pick(row[1..], height, n)
  }

  lemma {:induction false} PickIn(row: seq<Id>, height: map<Id, nat>, n: nat)
    ensures forall x :: x in Pick(row, height, n) <==> x in row && x in height && height[x] >= n
  {
    if row != [] {
      PickIn(row[1..], height, n);
    }
  }

  lemma PickFirst(row: seq<Id>, height: map<Id, nat>, n: nat)
    requires row != []
    ensures Pick(row, height, n)
         == (if row[0] in height && height[row[0]] >= n then [row[0]] else []) + Pick(row[1..], height, n)
  {
  }

  lemma {:induction false} PickConcat(a: seq<Id>, b: seq<Id>, height: map<Id, nat>, n: nat)
    ensures Pick(a + b, height, n) == Pick(a, height, n) + Pick(b, height, n)
  {
    if a == [] {
      assert a + b == b;
    } else {
      PickConcat(a[1..], b, height, n);
      assert (a + b)[1..] == a[1..] + b && (a + b)[0] == a[0];
      PickFirst(a, height, n);
      PickFirst(a + b, height, n);
      hide Pick;
    }
  }

  lemma {:induction false} PickSame(row: seq<Id>, h: map<Id, nat>, h': map<Id, nat>, n: nat)
    requires forall x :: x in row ==> (x in h <==> x in h') && (x in h ==> h[x] == h'[x])
    ensures Pick(row, h, n) == Pick(row, h', n)
  {
    if row != [] {
      PickSame(row[1..], h, h', n);
    }
  }

  lemma {:induction false} PickTwice(row: seq<Id>, h: map<Id, nat>, m: nat, n: nat)
    requires m <= n
    ensures Pick(Pick(row, h, m), h, n) == Pick(row, h, n)
  {
    if row != [] {
      PickTwice(row[1..], h, m, n);
    }
  }

  lemma {:induction false} PickRemove(row: seq<Id>, h: map<Id, nat>, n: nat, t: Id)
    ensures Pick(Without(row, t), h, n) == Without(Pick(row, h, n), t)
  {
    if row != [] {
      PickRemove(row[1..], h, n, t);
    }
  }

  lemma {:induction false} PickKeeps(row: seq<Id>, due: map<Id, nat>, h: map<Id, nat>, n: nat)
    requires Sorted(row, due) && NoRepeats(row)
    ensures Sorted(Pick(row, h, n), due) && NoRepeats(Pick(row, h, n))
  {
    if row != [] {
      assert Sorted(row[1..], due) && NoRepeats(row[1..]);
      PickKeeps(row[1..], due, h, n);
      var r := Pick(row[1..], h, n);
      PickIn(row[1..], h, n);
      assert forall x :: x in row[1..] ==> x in due && due[row[0]] <= due[x] && x != row[0];
    }
  }

  lemma PrependKeeps(x: Id, r: seq<Id>, due: map<Id, nat>)
    requires x in due && Sorted(r, due) && NoRepeats(r) && forall y :: y in r ==> y in due && due[x] <= due[y] && y != x
    ensures Sorted([x] + r, due) && NoRepeats([x] + r)
  {
    assert forall i :: 0 <= i < |r| ==> r[i] in r;
  }

  lemma {:induction false} RemoveKeeps(row: seq<Id>, due: map<Id, nat>, t: Id)
    requires Sorted(row, due) && NoRepeats(row)
    ensures Sorted(Without(row, t), due) && NoRepeats(Without(row, t))
  {
    if row != [] {
      assert Sorted(row[1..], due) && NoRepeats(row[1..]);
      RemoveKeeps(row[1..], due, t);
      var r := Without(row[1..], t);
      assert forall x :: x in row[1..] ==> x in due && due[row[0]] <= due[x] && x != row[0];
      assert row[0] != t ==> Without(row, t) == [row[0]] + r;
      assert row[0] == t ==> Without(row, t) == r;
      hide Without;
      PrependKeeps(row[0], r, due);
    }
  }

  /** A sorted row splits at the place of d. */
  lemma PosIs(row: seq<Id>, due: map<Id, nat>, d: nat, k: nat)
    requires Sorted(row, due) && k <= |row|
    requires forall i :: 0 <= i < k ==> due[row[i]] <= d
    requires k < |row| ==> due[row[k]] > d
    ensures Pos(row, due, d) == k
  {
  }

  lemma SplitAtPos(row: seq<Id>, due: map<Id, nat>, d: nat)
    requires Sorted(row, due)
    ensures var k := Pos(row, due, d);
            && (forall x :: x in row[..k] ==> x in due && due[x] <= d)
            && (forall x :: x in row[k..] ==> x in due && due[x] > d)
  {
    var k := Pos(row, due, d);
    assert forall i :: k <= i < |row| ==> due[row[k]] <= due[row[i]];
  }

  /** The place of d in a thinned row is what is left, after thinning, of the part before the place of d. */
  lemma PosPick(row: seq<Id>, due: map<Id, nat>, h: map<Id, nat>, n: nat, d: nat)
    requires Sorted(row, due) && NoRepeats(row)
    ensures var k := Pos(row, due, d);
            Pos(Pick(row, h, n), due, d) == |Pick(row[..k], h, n)|
            && Pick(row, h, n) == Pick(row[..k], h, n) + Pick(row[k..], h, n)
  {
    hide Sorted, NoRepeats, Pos, Pick;
    var k := Pos(row, due, d);
    SplitAtPos(row, due, d);
    PickKeeps(row, due, h, n);
    assert row == row[..k] + row[k..];
    PickConcat(row[..k], row[k..], h, n);
    PickIn(row[..k], h, n);
    PickIn(row[k..], h, n);
    PosSplit(Pick(row[..k], h, n), Pick(row[k..], h, n), due, d);
  }

  lemma PosSplit(a: seq<Id>, b: seq<Id>, due: map<Id, nat>, d: nat)
    requires Sorted(a + b, due)
    requires forall x :: x in a ==> x in due && due[x] <= d
    requires forall x :: x in b ==> x in due && due[x] > d
    ensures Pos(a + b, due, d) == |a|
  {
    assert forall i :: 0 <= i < |a| ==> (a + b)[i] in a;
    if b != [] {
      assert (a + b)[|a|] == b[0];
    }
    PosIs(a + b, due, d, |a|);
  }

  /** Putting a timer in at its place keeps the row sorted, with ties in the order they were started. */
  lemma InsertKeeps(row: seq<Id>, due: map<Id, nat>, t: Id, d: nat)
    requires Sorted(row, due) && NoRepeats(row) && t !in row
    ensures var r := InsertAt(row, Pos(row, due, d), t);
            Sorted(r, due[t := d]) && NoRepeats(r) && forall x :: x in r <==> x in row || x == t
  {
    hide InsertAt, Pos, NoRepeats, Sorted;
    var k := Pos(row, due, d);
    InsertAtPoints(row, k, t);
    InsertAtKeeps(row, k, t);
    InsertSorted(row, due, t, d, k, InsertAt(row, k, t));
  }

  lemma InsertSorted(row: seq<Id>, due: map<Id, nat>, t: Id, d: nat, k: nat, r: seq<Id>)
    requires Sorted(row, due) && t !in row && k == Pos(row, due, d) && |r| == |row| + 1 && r[k] == t
    requires (forall i :: 0 <= i < k ==> r[i] == row[i]) && (forall i :: k < i < |r| ==> r[i] == row[i - 1])
    ensures Sorted(r, due[t := d])
  {
    hide Pos;
    var due' := due[t := d];
    forall i | 0 <= i < |r|
      ensures r[i] in due' && (i < k ==> due'[r[i]] == due[row[i]] <= d) && (i > k ==> due'[r[i]] == due[row[i - 1]] > d)
    {
      if i < k {
        assert row[i] in row;
      } else if i > k {
        assert row[i - 1] in row && due[row[k]] <= due[row[i - 1]];
      }
    }
  }

  // ---------------------------------------------------------------- all the rows

  /** Row i links the timers at least levels - i rows high; the last row links all of them. */
  ghost predicate RowsOk(rows: seq<seq<Id>>, height: map<Id, nat>) {
    var ok :=
      && |rows| > 0
      && (forall i :: 0 <= i < |rows| ==> rows[i] == Pick(rows[|rows| - 1], height, |rows| - i))
      && (forall x :: x in rows[|rows| - 1] ==> x in height && height[x] >= 1);
    ok
  }

  /** Each row is a subsequence of the next denser one: what is left of it when the lower timers are dropped. */
  lemma RowOfNext(rows: seq<seq<Id>>, height: map<Id, nat>, i: nat)
    requires RowsOk(rows, height) && i + 1 < |rows|
    ensures rows[i] == Pick(rows[i + 1], height, |rows| - i)
  {
    PickTwice(rows[|rows| - 1], height, |rows| - i - 1, |rows| - i);
  }

  function RowsWithout(rows: seq<seq<Id>>, t: Id): seq<seq<Id>> {
    seq(|rows|, i requires 0 <= i < |rows| => Without(rows[i], t))
  }

  lemma RemoveRows(rows: seq<seq<Id>>, height: map<Id, nat>, t: Id)
    requires RowsOk(rows, height)
    ensures RowsOk(RowsWithout(rows, t), height)
  {
    var r := RowsWithout(rows, t);
    forall i | 0 <= i < |rows|
      ensures r[i] == Pick(r[|rows| - 1], height, |rows| - i)
    {
      PickRemove(rows[|rows| - 1], height, |rows| - i, t);
    }
  }

  /** The rows after t, h rows high, has gone in at the given places. */
  function RowsWith(rows: seq<seq<Id>>, heads: seq<nat>, t: Id, h: nat): seq<seq<Id>>
    requires |heads| == |rows| && forall i :: 0 <= i < |rows| ==> heads[i] <= |rows[i]|
  {
    seq(|rows|, i requires 0 <= i < |rows| => if |rows| - i <= h then InsertAt(rows[i], heads[i], t) else rows[i])
  }

  ghost predicate Places(rows: seq<seq<Id>>, due: map<Id, nat>, d: nat, heads: seq<nat>) {
    |heads| == |rows| && forall i :: 0 <= i < |rows| ==> heads[i] == Pos(rows[i], due, d)
  }

  lemma PlacesFit(rows: seq<seq<Id>>, due: map<Id, nat>, d: nat, heads: seq<nat>)
    requires Places(rows, due, d, heads)
    ensures |heads| == |rows| && forall i :: 0 <= i < |rows| ==> heads[i] <= |rows[i]|
  {
  }

  lemma PickInsert(full: seq<Id>, height: map<Id, nat>, due: map<Id, nat>, t: Id, d: nat, h: nat, n: nat)
    requires Sorted(full, due) && NoRepeats(full) && t !in full
    ensures Pick(InsertAt(full, Pos(full, due, d), t), height[t := h], n)
         == if n <= h then InsertAt(Pick(full, height, n), Pos(Pick(full, height, n), due, d), t) else Pick(full, height, n)
  {
    hide Sorted, NoRepeats, Pos, Pick;
    var height', k := height[t := h], Pos(full, due, d);
    var a, b := full[..k], full[k..];
    assert full == a + b;
    PosPick(full, due, height, n, d);
    PickSame(a, height, height', n);
    PickSame(b, height, height', n);
    PickConcat(a + [t], b, height', n);
    PickConcat(a, [t], height', n);
    PickOne(t, h, height, n);
    var p, q := Pick(a, height, n), Pick(b, height, n);
    assert (p + q)[..|p|] == p && (p + q)[|p|..] == q;
    assert n > h ==> p + [] == p;
  }

  lemma PickOne(t: Id, h: nat, height: map<Id, nat>, n: nat)
    ensures Pick([t], height[t := h], n) == if n <= h then [t] else []
  {
  }

  lemma RowsWithAt(rows: seq<seq<Id>>, heads: seq<nat>, t: Id, h: nat, i: nat)
    requires |heads| == |rows| && forall i :: 0 <= i < |rows| ==> heads[i] <= |rows[i]|
    requires i < |rows|
    ensures |RowsWith(rows, heads, t, h)| == |rows|
    ensures RowsWith(rows, heads, t, h)[i] == if |rows| - i <= h then InsertAt(rows[i], heads[i], t) else rows[i]
  {
  }

  /** If every row is searched to its own place, putting the timer there keeps the rows in step. */
  lemma InsertRows(rows: seq<seq<Id>>, height: map<Id, nat>, due: map<Id, nat>, t: Id, d: nat, heads: seq<nat>, h: nat)
    requires RowsOk(rows, height) && Sorted(rows[|rows| - 1], due) && NoRepeats(rows[|rows| - 1])
    requires t !in rows[|rows| - 1] && 1 <= h && Places(rows, due, d, heads)
    ensures RowsOk(RowsWith(rows, heads, t, h), height[t := h])
  {
    hide Pick, InsertAt, Pos, Sorted, NoRepeats, RowsWith;
    var full, r := rows[|rows| - 1], RowsWith(rows, heads, t, h);
    var k := Pos(full, due, d);
    RowsWithAt(rows, heads, t, h, |rows| - 1);
    InsertAtPoints(full, k, t);
    forall i | 0 <= i < |rows|
      ensures r[i] == Pick(InsertAt(full, k, t), height[t := h], |rows| - i)
    {
      RowsWithAt(rows, heads, t, h, i);
      PickInsert(full, height, due, t, d, h, |rows| - i);
    }
  }

  /** RT_TIMER_SKIP_LIST_MASK: 0x1 or 0x3. */
  datatype Mask = OneBit | TwoBits

  predicate LowClear(counter: nat, mask: Mask) {
    if mask.OneBit? then counter % 2 == 0 else counter % 4 == 0
  }

  function ShiftOver(counter: nat, mask: Mask): nat {
    if mask.OneBit? then counter / 2 else counter / 4
  }

  /** How many rows above the last one a timer joins: one for each group of low bits of the counter that is
      clear, up to the first that is not. */
  function Extra(counter: nat, mask: Mask, left: nat): (r: nat)
    ensures r <= left
  {
    if left == 0 || !LowClear(counter, mask) then 0 else 1 + Extra(ShiftOver(counter, mask), mask, left - 1)
  }

  /** b multiplied k times. */
  function Power(b: nat, k: nat): (r: nat)
    ensures b > 0 ==> r > 0
  {
    if k == 0 then 1 else b * Power(b, k - 1)
  }

  /** The number of rows above the last one is the largest k, up to the rows there are, for which the counter is a multiple of
      2 to the k, or of 4 to the k with two bits to a row. */
  lemma {:induction false} ExtraMeans(counter: nat, mask: Mask, left: nat, k: nat)
    requires k <= left
    ensures k <= Extra(counter, mask, left) <==> Multiple(counter, Power(if mask.OneBit? then 2 else 4, k))
    decreases k
  {
    var b := if mask.OneBit? then 2 else 4;
    hide Multiple;
    if k == 0 {
      MulMod(counter, 1);
    } else {
      LowMultiple(b, counter, Power(b, k - 1));
      if LowClear(counter, mask) {
        ExtraMeans(ShiftOver(counter, mask), mask, left - 1, k - 1);
      }
    }
  }

  /** A multiple of b times p is b times a multiple of p. */
  lemma LowMultiple(b: nat, c: nat, p: nat)
    requires (b == 2 || b == 4) && p > 0
    ensures Multiple(c, b * p) <==> c % b == 0 && Multiple(c / b, p)
  {
    hide Multiple;
    if Multiple(c, b * p) {
      var q := Quotient(c, b * p);
      Regroup(q, b, p);
      Divided(b, q * p, c);
      MulMod(q, p);
    }
    if c % b == 0 && Multiple(c / b, p) {
      var q := Quotient(c / b, p);
      Regroup(q, b, p);
      assert c == b * (c / b);
      MulMod(q, b * p);
    }
  }

  lemma Quotient(x: nat, a: nat) returns (q: int)
    requires Multiple(x, a)
    ensures x == q * a
  {
    q := x / a;
  }

  lemma Regroup(q: int, b: nat, p: nat)
    requires b == 2 || b == 4
    ensures b * p > 0 <==> p > 0
    ensures q * (b * p) == b * (q * p)
  {
  }

  lemma Divided(b: nat, x: int, c: nat)
    requires (b == 2 || b == 4) && c == b * x
    ensures c % b == 0 && c / b == x
  {
  }

  // ---------------------------------------------------------------- draining expired timers

  /** One round of the check: the first timer fires, and goes back in if it is periodic. */
  function RoundOf(row: seq<Id>, due: map<Id, nat>, init: map<Id, nat>, periodic: set<Id>, now: nat): (seq<Id>, map<Id, nat>)
    requires row != []
  {
    var t, rest := row[0], row[1..];
    if t in periodic && t in init then
      (InsertAt(rest, Pos(rest, due, now + init[t]), t), due[t := now + init[t]])
    else (rest, due)
  }

  /** The full row and the deadlines after n rounds, or fewer if the row runs out. */
  function Drain(row: seq<Id>, due: map<Id, nat>, init: map<Id, nat>, periodic: set<Id>, now: nat, n: nat): (seq<Id>, map<Id, nat>)
    decreases n
  {
    if n == 0 || row == [] then (row, due)
    else
      var (row1, due1) := RoundOf(row, due, init, periodic, now);
      Drain(row1, due1, init, periodic, now, n - 1)
  }

  lemma RoundRest(row: seq<Id>, due: map<Id, nat>, now: nat)
    requires Sorted(row, due) && NoRepeats(row) && row != [] && due[row[0]] <= now
    ensures var n, rest := Pos(row, due, now), row[1..];
            && 0 < n && row[0] !in rest && Sorted(rest, due) && NoRepeats(rest) && Pos(rest, due, now) == n - 1
  {
    var n, rest := Pos(row, due, now), row[1..];
    assert forall i :: 0 <= i < |rest| ==> rest[i] == row[i + 1];
    assert forall i :: 0 <= i < n ==> due[row[i]] <= now;
    PosIs(rest, due, now, n - 1);
  }

  /** One round of the check: the number of expired timers goes down exactly when the first one is not a
      periodic timer of period zero. */
  lemma Round(row: seq<Id>, due: map<Id, nat>, now: nat, t: Id, d: nat)
    requires Sorted(row, due) && NoRepeats(row) && row != [] && row[0] == t && due[t] <= now <= d
    ensures var n, rest := Pos(row, due, now), row[1..];
            var k := Pos(rest, due, d);
            && 0 < n <= k + 1 && Pos(InsertAt(rest, k, t), due[t := d], now) == (if d == now then n else n - 1)
            && InsertAt(rest, k, t)[..n - 1] == row[1..n]
  {
    RoundRest(row, due, now);
    var n, rest := Pos(row, due, now), row[1..];
    var k := Pos(rest, due, d);
    assert n - 1 <= k && (d == now ==> k == n - 1);
    InsertKeeps(rest, due, t, d);
    InsertAtPoints(rest, k, t);
    var r := InsertAt(rest, k, t);
    assert r[..n - 1] == row[1..n];
    hide InsertAt;
    RoundPlace(rest, r, due, now, t, d, k, n);
  }

  lemma RoundPlace(rest: seq<Id>, r: seq<Id>, due: map<Id, nat>, now: nat, t: Id, d: nat, k: nat, n: nat)
    requires Sorted(r, due[t := d]) && Sorted(rest, due) && t !in rest && |r| == |rest| + 1 && k <= |rest| && r[k] == t
    requires (forall i :: 0 <= i < k ==> r[i] == rest[i]) && (forall i :: k < i < |r| ==> r[i] == rest[i - 1])
    requires 0 < n <= k + 1 && n - 1 == Pos(rest, due, now) && now <= d && (d == now ==> k == n - 1)
    ensures Pos(r, due[t := d], now) == if d == now then n else n - 1
  {
    var due' := due[t := d];
    var m := if d == now then n else n - 1;
    forall i | 0 <= i < m
      ensures due'[r[i]] <= now
    {
      assert i < k ==> r[i] == rest[i] && rest[i] in rest;
    }
    if m < |r| {
      assert m < k ==> r[m] == rest[m] && rest[m] in rest;
      assert m > k ==> r[m] == rest[m - 1] && rest[m - 1] in rest;
    }
    PosIs(r, due', now, m);
  }

  /** Who is armed after a check and when they are due, in terms of the row before it. */
  ghost predicate Drained(row: seq<Id>, due: map<Id, nat>, init: map<Id, nat>, periodic: set<Id>, now: nat, n: nat,
                          row': seq<Id>, due': map<Id, nat>)
    requires n <= |row|
  {
    var drained :=
      && Sorted(row', due') && NoRepeats(row')
      && (forall x :: x in row' ==> x in row)
      && (forall i :: n <= i < |row| ==> row[i] in row' && row[i] in due && due'[row[i]] == due[row[i]])
      && (forall i :: 0 <= i < n ==>
            (row[i] in row' <==> row[i] in periodic && row[i] in init)
            && (row[i] in row' ==> due'[row[i]] == now + init[row[i]]));
    drained
  }

  lemma DrainRearmed(row: seq<Id>, due: map<Id, nat>, init: map<Id, nat>, periodic: set<Id>, now: nat, n: nat, d: nat,
                     row': seq<Id>, due': map<Id, nat>)
    requires Sorted(row, due) && NoRepeats(row) && 0 < n == Pos(row, due, now)
    requires row[0] in periodic && row[0] in init && d == now + init[row[0]]
    requires var k := Pos(row[1..], due, d);
             && n - 1 <= k && InsertAt(row[1..], k, row[0])[..n - 1] == row[1..n]
             && Drained(InsertAt(row[1..], k, row[0]), due[row[0] := d], init, periodic, now, n - 1, row', due')
    ensures Drained(row, due, init, periodic, now, n, row', due')
  {
    hide InsertAt, Pos, Sorted, NoRepeats;
    var t, rest := row[0], row[1..];
    var k := Pos(rest, due, d);
    var r := InsertAt(rest, k, t);
    InsertAtPoints(rest, k, t);
    RowKnown(row, due);
    RowKnown(row', due');
    FirstApart(row);
    forall i | n <= i < |row|
      ensures row[i] in row' && row[i] in due && due'[row[i]] == due[row[i]]
    {
      var j := RearmedAt(row, k, r, i);
      assert r[j] in row';
    }
    forall i | 0 <= i < n
      ensures row[i] in row' <==> row[i] in periodic && row[i] in init
      ensures row[i] in row' ==> due'[row[i]] == now + init[row[i]]
    {
      if i == 0 {
        assert r[k] == t && r[k] in row';
      } else {
        assert row[i] == row[1..n][i - 1] == r[..n - 1][i - 1] == r[i - 1];
      }
    }
  }

  /** Where a timer of a row is after the first has gone back in at place k of the rest. */
  lemma RearmedAt(row: seq<Id>, k: nat, r: seq<Id>, i: nat) returns (j: nat)
    requires 0 < i < |row| && row[0] !in row[1..] && k < |r| == |row|
    requires (forall i :: 0 <= i < k ==> r[i] == row[1..][i]) && (forall i :: k < i < |r| ==> r[i] == row[1..][i - 1])
    ensures j == (if i - 1 < k then i - 1 else i) && r[j] == row[i] && row[i] != row[0]
  {
    j := if i - 1 < k then i - 1 else i;
    assert row[1..][i - 1] == row[i] && row[1..][i - 1] in row[1..];
  }

  lemma FirstApart(row: seq<Id>)
    requires NoRepeats(row) && row != []
    ensures row[0] !in row[1..]
  {
  }

  lemma DrainDropped(row: seq<Id>, due: map<Id, nat>, init: map<Id, nat>, periodic: set<Id>, now: nat, n: nat,
                     row': seq<Id>, due': map<Id, nat>)
    requires Sorted(row, due) && NoRepeats(row) && 0 < n <= |row| && !(row[0] in periodic && row[0] in init)
    requires Drained(row[1..], due, init, periodic, now, n - 1, row', due')
    ensures Drained(row, due, init, periodic, now, n, row', due')
  {
    var rest := row[1..];
    assert forall i :: 0 <= i < |rest| ==> rest[i] == row[i + 1] && rest[i] != row[0];
    assert row[0] !in row';
    forall i | 1 <= i < |row|
      ensures row[i] == rest[i - 1]
    {
    }
    hide Sorted, NoRepeats;
  }

  lemma DrainNone(row: seq<Id>, due: map<Id, nat>, init: map<Id, nat>, periodic: set<Id>, now: nat)
    requires Sorted(row, due) && NoRepeats(row) && Pos(row, due, now) == 0
    ensures Drained(row, due, init, periodic, now, 0, row, due) && forall x :: x in row ==> x in due && due[x] > now
  {
    assert forall i :: 0 <= i < |row| ==> due[row[0]] <= due[row[i]];
  }

  /** One round takes one timer off the expired ones and keeps the rest of them in line. */
  lemma RoundKeeps(row: seq<Id>, due: map<Id, nat>, init: map<Id, nat>, periodic: set<Id>, now: nat, n: nat)
    requires Sorted(row, due) && NoRepeats(row) && 0 < n == Pos(row, due, now)
    requires row[0] in periodic && row[0] in init ==> init[row[0]] >= 1
    ensures var (row1, due1) := RoundOf(row, due, init, periodic, now);
      && Sorted(row1, due1) && NoRepeats(row1) && n - 1 == Pos(row1, due1, now)
      && (forall x :: x in row1 ==> x in row) && row1[..n - 1] == row[1..n]
  {
    hide Sorted, NoRepeats, InsertAt, Pos;
    var t, rest := row[0], row[1..];
    FirstIsDue(row, due, now);
    RoundRest(row, due, now);
    if t in periodic && t in init {
      var d := now + init[t];
      Round(row, due, now, t, d);
      InsertKeeps(rest, due, t, d);
    } else {
      assert rest[..n - 1] == row[1..n];
    }
  }

  lemma FirstIsDue(row: seq<Id>, due: map<Id, nat>, now: nat)
    requires Sorted(row, due) && Pos(row, due, now) > 0
    ensures row[0] in due && due[row[0]] <= now
  {
  }

  lemma RoundDrained(row: seq<Id>, due: map<Id, nat>, init: map<Id, nat>, periodic: set<Id>, now: nat, n: nat,
                     row': seq<Id>, due': map<Id, nat>)
    requires Sorted(row, due) && NoRepeats(row) && 0 < n == Pos(row, due, now)
    requires row[0] in periodic && row[0] in init ==> init[row[0]] >= 1
    requires var (row1, due1) := RoundOf(row, due, init, periodic, now);
             n - 1 <= |row1| && Drained(row1, due1, init, periodic, now, n - 1, row', due')
    ensures Drained(row, due, init, periodic, now, n, row', due')
  {
    hide Sorted, NoRepeats, Drained, InsertAt, Pos;
    var t := row[0];
    FirstIsDue(row, due, now);
    if t in periodic && t in init {
      var d := now + init[t];
      Round(row, due, now, t, d);
      DrainRearmed(row, due, init, periodic, now, n, d, row', due');
    } else {
      DrainDropped(row, due, init, periodic, now, n, row', due');
    }
  }

  /** Some expired timer is periodic with a period of zero. */
  ghost predicate Stuck(row: seq<Id>, due: map<Id, nat>, init: map<Id, nat>, periodic: set<Id>, now: nat) {
    exists i :: 0 <= i < Pos(row, due, now) && row[i] in periodic && row[i] in init && init[row[i]] == 0
  }

  lemma UnstuckRound(row: seq<Id>, due: map<Id, nat>, init: map<Id, nat>, periodic: set<Id>, now: nat, n: nat)
    requires Sorted(row, due) && NoRepeats(row) && 0 < n == Pos(row, due, now) && !Stuck(row, due, init, periodic, now)
    ensures row[0] in periodic && row[0] in init ==> init[row[0]] >= 1
    ensures var (row1, due1) := RoundOf(row, due, init, periodic, now); !Stuck(row1, due1, init, periodic, now)
  {
    assert row[0] in periodic && row[0] in init ==> init[row[0]] >= 1;
    RoundKeeps(row, due, init, periodic, now, n);
    hide Sorted, NoRepeats, Pos, RoundOf;
    var (row1, due1) := RoundOf(row, due, init, periodic, now);
    forall i | 0 <= i < n - 1
      ensures row1[i] == row[i + 1]
    {
      assert row1[..n - 1][i] == row[1..n][i];
    }
  }

  /** A check fires the expired timers, re-arms exactly the periodic ones of them, one period from now, leaves the
      others as they were, and leaves nothing expired. */
  lemma {:induction false} DrainKeeps(row: seq<Id>, due: map<Id, nat>, init: map<Id, nat>, periodic: set<Id>, now: nat, n: nat)
    requires Sorted(row, due) && NoRepeats(row) && n == Pos(row, due, now)
    requires !Stuck(row, due, init, periodic, now)
    ensures var (row', due') := Drain(row, due, init, periodic, now, n);
            Drained(row, due, init, periodic, now, n, row', due') && forall x :: x in row' ==> x in due' && due'[x] > now
    decreases n
  {
    hide Drained, Sorted, NoRepeats, Pos, InsertAt, RoundOf, Stuck;
    if n == 0 {
      DrainNone(row, due, init, periodic, now);
    } else {
      UnstuckRound(row, due, init, periodic, now, n);
      RoundKeeps(row, due, init, periodic, now, n);
      var (row1, due1) := RoundOf(row, due, init, periodic, now);
      DrainKeeps(row1, due1, init, periodic, now, n - 1);
      var (row', due') := Drain(row1, due1, init, periodic, now, n - 1);
      RoundDrained(row, due, init, periodic, now, n, row', due');
    }
  }

  /** A timer of period zero goes back in behind the other expired ones. */
  lemma ZeroRound(row: seq<Id>, due: map<Id, nat>, init: map<Id, nat>, periodic: set<Id>, now: nat, n: nat)
    requires Sorted(row, due) && NoRepeats(row) && 0 < n == Pos(row, due, now)
    requires row[0] in periodic && row[0] in init && init[row[0]] == 0
    ensures var (row1, due1) := RoundOf(row, due, init, periodic, now);
            Sorted(row1, due1) && NoRepeats(row1) && Pos(row1, due1, now) == n && row1[n - 1] == row[0]
  {
    hide Sorted, NoRepeats, InsertAt, Pos;
    var t, rest := row[0], row[1..];
    FirstIsDue(row, due, now);
    RoundRest(row, due, now);
    Round(row, due, now, t, now);
    InsertKeeps(rest, due, t, now);
    InsertAtPoints(rest, Pos(rest, due, now), t);
    assert now + init[t] == now;
  }

  lemma StuckRound(row: seq<Id>, due: map<Id, nat>, init: map<Id, nat>, periodic: set<Id>, now: nat)
    requires Sorted(row, due) && NoRepeats(row) && Stuck(row, due, init, periodic, now)
    ensures var (row1, due1) := RoundOf(row, due, init, periodic, now);
            Sorted(row1, due1) && NoRepeats(row1) && Stuck(row1, due1, init, periodic, now)
  {
    hide Sorted, NoRepeats, Pos, RoundOf;
    var n := Pos(row, due, now);
    var i :| 0 <= i < n && row[i] in periodic && row[i] in init && init[row[i]] == 0;
    var (row1, due1) := RoundOf(row, due, init, periodic, now);
    if row[0] in periodic && row[0] in init && init[row[0]] == 0 {
      ZeroRound(row, due, init, periodic, now, n);
    } else {
      RoundKeeps(row, due, init, periodic, now, n);
      assert row1[i - 1] == row1[..n - 1][i - 1] == row[1..n][i - 1] == row[i];
    }
  }

  /** The check is over after m rounds or before. */
  predicate EndsIn(row: seq<Id>, due: map<Id, nat>, init: map<Id, nat>, periodic: set<Id>, now: nat, m: nat)
    decreases m
  {
    Pos(row, due, now) == 0
    || (m > 0
        && var (row1, due1) := RoundOf(row, due, init, periodic, now);
           EndsIn(row1, due1, init, periodic, now, m - 1))
  }

  lemma {:induction false} StuckForever(row: seq<Id>, due: map<Id, nat>, init: map<Id, nat>, periodic: set<Id>, now: nat, m: nat)
    requires Sorted(row, due) && NoRepeats(row) && Stuck(row, due, init, periodic, now)
    ensures !EndsIn(row, due, init, periodic, now, m)
    decreases m
  {
    StuckRound(row, due, init, periodic, now);
    hide Sorted, NoRepeats, Pos, RoundOf;
    if m > 0 {
      var (row1, due1) := RoundOf(row, due, init, periodic, now);
      StuckForever(row1, due1, init, periodic, now, m - 1);
    }
  }

  lemma {:induction false} EndsInTime(row: seq<Id>, due: map<Id, nat>, init: map<Id, nat>, periodic: set<Id>, now: nat, n: nat)
    requires Sorted(row, due) && NoRepeats(row) && n == Pos(row, due, now)
    requires !Stuck(row, due, init, periodic, now)
    ensures EndsIn(row, due, init, periodic, now, n)
    decreases n
  {
    if n > 0 {
      UnstuckRound(row, due, init, periodic, now, n);
      RoundKeeps(row, due, init, periodic, now, n);
      hide Sorted, NoRepeats, Pos, RoundOf, Stuck;
      var (row1, due1) := RoundOf(row, due, init, periodic, now);
      EndsInTime(row1, due1, init, periodic, now, n - 1);
    }
  }

  /** A check comes to an end exactly when no expired timer is periodic with a period of zero. */
  lemma CheckEnds(row: seq<Id>, due: map<Id, nat>, init: map<Id, nat>, periodic: set<Id>, now: nat)
    requires Sorted(row, due) && NoRepeats(row)
    ensures (exists m: nat :: EndsIn(row, due, init, periodic, now, m)) <==> !Stuck(row, due, init, periodic, now)
  {
    hide Sorted, NoRepeats, Pos, RoundOf;
    if Stuck(row, due, init, periodic, now) {
      forall m: nat
        ensures !EndsIn(row, due, init, periodic, now, m)
      {
        StuckForever(row, due, init, periodic, now, m);
      }
    } else {
      EndsInTime(row, due, init, periodic, now, Pos(row, due, now));
    }
  }

  lemma RowKnown(row: seq<Id>, due: map<Id, nat>)
    requires Sorted(row, due)
    ensures Known(row, due)
  {
  }

  // ---------------------------------------------------------------- searching the rows

  /** Timer fields agree with the true deadlines, and every armed timer lies in the window around now. */
  ghost predicate Stamped(full: seq<Id>, due: map<Id, nat>, timeout: map<Id, nat>, now: nat) {
    forall x :: x in full ==> x in due && x in timeout && timeout[x] == due[x] % TICKS && now <= due[x] + 1 && due[x] < now + HALF
  }

  function IndexOf(row: seq<Id>, t: Id): (i: nat)
    requires t in row
    ensures i < |row| && row[i] == t
  {
    if row[0] == t then 0 else 1 + IndexOf(row[1..], t)
  }

  lemma NotYetThere(row: seq<Id>, due: map<Id, nat>, d: nat, p: nat)
    requires Sorted(row, due) && p < |row| && p <= Pos(row, due, d)
    ensures row[p] in due
    ensures due[row[p]] > d <==> p == Pos(row, due, d)
  {
    PosSides(row, due, d, p);
  }

  /** Along one row, from a link not beyond the place looked for. */
  method ScanRow(row: seq<Id>, timeout: map<Id, nat>, dt: nat, start: nat,
                 ghost due: map<Id, nat>, ghost now: nat, ghost d: nat) returns (p: nat)
    requires Sorted(row, due) && Stamped(row, due, timeout, now) && now <= d < now + HALF && dt == d % TICKS
    requires start <= Pos(row, due, d)
    ensures p == Pos(row, due, d)
  {
    hide Pos, Sorted;
    p := start;
    while p != |row|
      invariant p <= Pos(row, due, d)
      decreases |row| - p
    {
      var t := row[p];
      assert t in row;
      LaterExact(due[t], d);
      NotYetThere(row, due, d, p);
      if Diff(timeout[t], dt) == 0 {
        p := p + 1;
        continue;
      } else if Diff(timeout[t], dt) < HALF {
        break;
      }
      p := p + 1;
    }
  }

  /** The link of the same timer one row down; 0 stands for the head of a row. */
  function Below(rows: seq<seq<Id>>, level: nat, p: nat): nat
    requires level + 1 < |rows| && p <= |rows[level]|
    requires p > 0 ==> rows[level][p - 1] in rows[level + 1]
  {
    if p == 0 then 0 else IndexOf(rows[level + 1], rows[level][p - 1]) + 1
  }

  lemma RowFacts(rows: seq<seq<Id>>, height: map<Id, nat>, due: map<Id, nat>, i: nat)
    requires RowsOk(rows, height) && Sorted(rows[|rows| - 1], due) && NoRepeats(rows[|rows| - 1]) && i < |rows|
    ensures Sorted(rows[i], due) && forall x :: x in rows[i] ==> x in rows[|rows| - 1]
    ensures i + 1 < |rows| ==> forall x :: x in rows[i] ==> x in rows[i + 1]
  {
    hide Sorted, NoRepeats, Pick;
    PickKeeps(rows[|rows| - 1], due, height, |rows| - i);
    PickIn(rows[|rows| - 1], height, |rows| - i);
    if i + 1 < |rows| {
      RowOfNext(rows, height, i);
      PickIn(rows[i + 1], height, |rows| - i);
    }
  }

  lemma BelowNotBeyond(rows: seq<seq<Id>>, due: map<Id, nat>, d: nat, level: nat, p: nat)
    requires level + 1 < |rows| && Sorted(rows[level], due) && Sorted(rows[level + 1], due)
    requires p == Pos(rows[level], due, d)
    requires p > 0 ==> rows[level][p - 1] in rows[level + 1]
    ensures Below(rows, level, p) <= Pos(rows[level + 1], due, d)
  {
    if p > 0 {
      var x := rows[level][p - 1];
      PosSides(rows[level], due, d, p - 1);
      PosSides(rows[level + 1], due, d, IndexOf(rows[level + 1], x));
    }
  }

  lemma PosSides(row: seq<Id>, due: map<Id, nat>, d: nat, j: nat)
    requires Sorted(row, due) && j < |row|
    ensures row[j] in due && (j < Pos(row, due, d) <==> due[row[j]] <= d)
  {
    RowKnown(row, due);
  }

  /** The search over all the rows, sparsest first, stops in every row where a linear scan of that row would. */
  method Search(rows: seq<seq<Id>>, timeout: map<Id, nat>, dt: nat,
                ghost height: map<Id, nat>, ghost due: map<Id, nat>, ghost now: nat, ghost d: nat) returns (heads: seq<nat>)
    requires RowsOk(rows, height) && Sorted(rows[|rows| - 1], due) && NoRepeats(rows[|rows| - 1])
    requires Stamped(rows[|rows| - 1], due, timeout, now) && now <= d < now + HALF && dt == d % TICKS
    ensures Places(rows, due, d, heads)
  {
    hide Pos, Sorted, NoRepeats, RowsOk, Below;
    heads := [];
    var p: nat, level := 0, 0;
    while level < |rows|
      invariant level == |heads| <= |rows|
      invariant forall i :: 0 <= i < level ==> heads[i] == Pos(rows[i], due, d)
      invariant level < |rows| ==> p <= Pos(rows[level], due, d)
    {
      RowFacts(rows, height, due, level);
      p := ScanRow(rows[level], timeout, dt, p, due, now, d);
      heads := heads + [p];
      if level != |rows| - 1 {
        RowFacts(rows, height, due, level + 1);
        assert p > 0 ==> rows[level][p - 1] in rows[level];
        BelowNotBeyond(rows, due, d, level, p);
        p := Below(rows, level, p);
      }
      level := level + 1;
    }
  }

  // ---------------------------------------------------------------- the timer system

  /** What holds of the rows, the timer fields and the clock between any two operations. */
  ghost predicate Sound(rows: seq<seq<Id>>, height: map<Id, nat>, due: map<Id, nat>, timeout: map<Id, nat>,
                        init: map<Id, nat>, active: set<Id>, tick: nat, now: nat) {
    var ok :=
      && RowsOk(rows, height) && Sorted(rows[|rows| - 1], due) && NoRepeats(rows[|rows| - 1])
      && Stamped(rows[|rows| - 1], due, timeout, now)
      && (forall x :: x in rows[|rows| - 1] <==> x in active)
      && (forall x :: x in active ==> x in init)
      && (forall x :: x in init ==> init[x] < HALF)
      && tick == now % TICKS;
    ok
  }

  lemma SoundParts(rows: seq<seq<Id>>, height: map<Id, nat>, due: map<Id, nat>, timeout: map<Id, nat>,
                   init: map<Id, nat>, active: set<Id>, tick: nat, now: nat)
    requires Sound(rows, height, due, timeout, init, active, tick, now)
    ensures RowsOk(rows, height) && Sorted(rows[|rows| - 1], due) && NoRepeats(rows[|rows| - 1])
    ensures Stamped(rows[|rows| - 1], due, timeout, now) && tick == now % TICKS
    ensures forall x :: x in rows[|rows| - 1] <==> x in active
    ensures forall x :: x in active ==> x in init
    ensures forall x :: x in init ==> init[x] < HALF
  {
  }

  lemma RemoveSound(rows: seq<seq<Id>>, height: map<Id, nat>, due: map<Id, nat>, timeout: map<Id, nat>,
                    init: map<Id, nat>, active: set<Id>, tick: nat, now: nat, t: Id)
    requires Sound(rows, height, due, timeout, init, active, tick, now)
    ensures Sound(RowsWithout(rows, t), height, due, timeout, init, active - {t}, tick, now)
    ensures RowsWithout(rows, t)[|rows| - 1] == Without(rows[|rows| - 1], t)
  {
    hide RowsOk, Sorted, NoRepeats, Without;
    RowsAre(rows, height);
    RemoveRows(rows, height, t);
    RemoveKeeps(rows[|rows| - 1], due, t);
  }

  ghost predicate NotPast(full: seq<Id>, due: map<Id, nat>, now: nat) {
    forall x :: x in full ==> x in due && now <= due[x]
  }

  lemma ArmNotPast(full: seq<Id>, due: map<Id, nat>, now: nat, t: Id, d: nat)
    requires NotPast(full, due, now) && now <= d
    ensures NotPast(InsertAt(Without(full, t), Pos(Without(full, t), due, d), t), due[t := d], now)
  {
    hide InsertAt, Pos;
    InsertAtPoints(Without(full, t), Pos(Without(full, t), due, d), t);
  }

  lemma RowsAre(rows: seq<seq<Id>>, height: map<Id, nat>)
    requires RowsOk(rows, height)
    ensures |rows| > 0
  {
  }

  lemma ArmSound(rows: seq<seq<Id>>, height: map<Id, nat>, due: map<Id, nat>, timeout: map<Id, nat>,
                 init: map<Id, nat>, active: set<Id>, tick: nat, now: nat, t: Id, heads: seq<nat>, h: nat)
    requires Sound(rows, height, due, timeout, init, active, tick, now)
    requires t !in active && t in init && 1 <= h && |rows| > 0
    requires Places(rows, due, now + init[t], heads)
    ensures var d := now + init[t];
      && Sound(RowsWith(rows, heads, t, h), height[t := h], due[t := d], timeout[t := (tick + init[t]) % TICKS],
               init, active + {t}, tick, now)
      && RowsWith(rows, heads, t, h)[|rows| - 1] == InsertAt(rows[|rows| - 1], Pos(rows[|rows| - 1], due, d), t)
  {
    hide RowsOk, Sorted, NoRepeats, InsertAt, Pos, RowsWith;
    var d, full := now + init[t], rows[|rows| - 1];
    InsertRows(rows, height, due, t, d, heads, h);
    InsertKeeps(full, due, t, d);
    RowsWithAt(rows, heads, t, h, |rows| - 1);
    TickOf(now, init[t]);
  }

  /** The wrapped deadline is the true one, wrapped. */
  lemma TickOf(now: nat, n: nat)
    ensures (now % TICKS + n) % TICKS == (now + n) % TICKS
  {
  }

  /** How far a check has come: fired has fired, and what is left of it is what was left of the whole. */
  ghost predicate Underway(row0: seq<Id>, due0: map<Id, nat>, row: seq<Id>, due: map<Id, nat>, init: map<Id, nat>,
                           periodic: set<Id>, now: nat, fired: seq<Id>) {
    var n, m := Pos(row0, due0, now), Pos(row, due, now);
    var ok :=
      && |fired| + m == n && fired == row0[..|fired|] && row[..m] == row0[|fired|..n]
      && Drain(row, due, init, periodic, now, m) == Drain(row0, due0, init, periodic, now, n)
      && (forall x :: x in row ==> x in row0);
    ok
  }

  /** The wrapped test tells whether the first timer of the row is due; if it is, one more round follows. */
  lemma CheckRound(row0: seq<Id>, due0: map<Id, nat>, row: seq<Id>, due: map<Id, nat>, timeout: map<Id, nat>,
                   init: map<Id, nat>, periodic: set<Id>, now: nat, fired: seq<Id>)
    requires Sorted(row, due) && NoRepeats(row) && Stamped(row, due, timeout, now) && row != []
    requires Underway(row0, due0, row, due, init, periodic, now, fired)
    requires !Stuck(row0, due0, init, periodic, now)
    ensures row[0] in timeout && (Expired(now % TICKS, timeout[row[0]]) <==> |fired| < Pos(row0, due0, now))
    ensures |fired| < Pos(row0, due0, now) ==>
      var (row1, due1) := RoundOf(row, due, init, periodic, now);
      Underway(row0, due0, row1, due1, init, periodic, now, fired + [row[0]])
  {
    hide Sorted, NoRepeats, Pos, RoundOf, Expired;
    var n, m := Pos(row0, due0, now), Pos(row, due, now);
    assert row[0] in row && row[0] in row0;
    ExpiredExact(now, due[row[0]]);
    PosSides(row, due, now, 0);
    if m > 0 {
      assert row[0] == row[..m][0] == row0[|fired|..n][0] == row0[|fired|];
      RoundKeeps(row, due, init, periodic, now, m);
      var (row1, due1) := RoundOf(row, due, init, periodic, now);
      assert row1[..m - 1] == row[1..m] == row[..m][1..];
    }
  }

  lemma CheckStarts(row: seq<Id>, due: map<Id, nat>, init: map<Id, nat>, periodic: set<Id>, now: nat)
    ensures Underway(row, due, row, due, init, periodic, now, [])
  {
  }

  lemma CheckOver(row0: seq<Id>, due0: map<Id, nat>, row: seq<Id>, due: map<Id, nat>, init: map<Id, nat>,
                  periodic: set<Id>, now: nat, fired: seq<Id>)
    requires Underway(row0, due0, row, due, init, periodic, now, fired)
    requires row == [] || |fired| >= Pos(row0, due0, now)
    ensures fired == row0[..Pos(row0, due0, now)]
    ensures (row, due) == Drain(row0, due0, init, periodic, now, Pos(row0, due0, now))
  {
  }

  lemma RemoveFirst(row: seq<Id>)
    requires NoRepeats(row) && row != []
    ensures Without(row, row[0]) == row[1..]
  {
    FirstApart(row);
  }

  class TimerSystem {
    const levels: nat                    // RT_TIMER_SKIP_LIST_LEVEL
    const mask: Mask
    var rows: seq<seq<Id>>               // _timer_list, and the row links of the timers
    var timeout: map<Id, nat>            // timeout_tick of each timer
    var init: map<Id, nat>               // init_tick of each timer
    var periodic: set<Id>                // RT_TIMER_FLAG_PERIODIC
    var active: set<Id>                  // RT_TIMER_FLAG_ACTIVATED
    var tick: nat                        // rt_tick
    var random: nat                      // random_nr
    ghost var now: nat                   // ticks since the start
    ghost var due: map<Id, nat>          // the deadlines without wrapping
    ghost var height: map<Id, nat>       // in how many rows a timer is linked

    ghost predicate Valid()
      reads this
    {
      |rows| == levels && levels > 0 && Sound(rows, height, due, timeout, init, active, tick, now)
    }

    /** The armed timers in the order in which they will fire. */
    ghost function Full(): seq<Id>
      requires Valid()
      reads this
    {
      rows[levels - 1]
    }

    /** No deadline has gone by. */
    ghost predicate OnTime()
      requires Valid()
      reads this
    {
      NotPast(Full(), due, now)
    }

    constructor (levels: nat, mask: Mask)
      requires levels > 0
      ensures Valid() && OnTime() && Full() == [] && now == 0 && init == map[] && this.levels == levels && this.mask == mask
    {
      this.levels, this.mask := levels, mask;
      rows := seq(levels, _ => []);
      timeout, init, periodic, active := map[], map[], {}, {};
      tick, random := 0, 0;
      now, due, height := 0, map[], map[];
    }

    /** rt_timer_init, for a timer that is not armed. */
    method Init(t: Id, time: nat, isPeriodic: bool)
      requires Valid() && OnTime() && t !in active && time < HALF
      modifies this`timeout, this`init, this`periodic
      ensures Valid() && OnTime() && init == old(init)[t := time]
      ensures periodic == if isPeriodic then old(periodic) + {t} else old(periodic) - {t}
    {
      timeout := timeout[t := 0];
      init := init[t := time];
      periodic := if isPeriodic then periodic + {t} else periodic - {t};
      hide RowsOk, Sorted, NoRepeats;
    }

    /** RT_TIMER_CTRL_SET_TIME: a timer that is armed keeps its deadline. */
    method SetTime(t: Id, time: nat)
      requires Valid() && OnTime() && t in init && time < HALF
      modifies this`init
      ensures Valid() && OnTime() && init == old(init)[t := time]
    {
      init := init[t := time];
      hide RowsOk, Sorted, NoRepeats, Stamped;
    }

    method SetPeriodic(t: Id, isPeriodic: bool)
      requires Valid() && OnTime()
      modifies this`periodic
      ensures Valid() && OnTime()
      ensures periodic == if isPeriodic then old(periodic) + {t} else old(periodic) - {t}
    {
      periodic := if isPeriodic then periodic + {t} else periodic - {t};
    }

    /** _timer_remove and clearing the activated flag. */
    method RemoveTimer(t: Id)
      requires Valid()
      modifies this`rows, this`active
      ensures Valid() && active == old(active) - {t} && Full() == Without(old(Full()), t)
    {
      hide Sound, Without;
      var i := 0;
      while i < |rows|
        modifies this`rows
        invariant i <= |rows| == levels
        invariant forall k :: 0 <= k < i ==> rows[k] == Without(old(rows)[k], t)
        invariant forall k :: i <= k < levels ==> rows[k] == old(rows)[k]
      {
        rows := rows[i := Without(rows[i], t)];
        i := i + 1;
      }
      active := active - {t};
      assert rows == RowsWithout(old(rows), t);
      RemoveSound(old(rows), height, due, timeout, init, old(active), tick, now, t);
    }

    /** Links t in at the places found: always in the last row, in the others as long as the counter has clear bits. */
    method Link(t: Id, heads: seq<nat>) returns (ghost h: nat)
      requires levels > 0 && |heads| == |rows| == levels && forall i :: 0 <= i < |rows| ==> heads[i] <= |rows[i]|
      modifies this`rows, this`random
      ensures h == 1 + Extra(random, mask, levels - 1) && random == (old(random) + 1) % TICKS
      ensures |rows| == levels && rows == RowsWith(old(rows), heads, t, h)
    {
      hide InsertAt;
      random := (random + 1) % TICKS;
      var tst := random;
      rows := rows[levels - 1 := InsertAt(rows[levels - 1], heads[levels - 1], t)];
      h := 1 + Extra(random, mask, levels - 1);
      var lvl := 2;
      while lvl <= levels && LowClear(tst, mask)
        modifies this`rows
        invariant 2 <= lvl <= levels + 1 && |rows| == levels
        invariant h == lvl - 1 + Extra(tst, mask, levels + 1 - lvl)
        invariant forall k :: 0 <= k < levels ==>
                    rows[k] == if levels - k < lvl then InsertAt(old(rows)[k], heads[k], t) else old(rows)[k]
      {
        rows := rows[levels - lvl := InsertAt(rows[levels - lvl], heads[levels - lvl], t)];
        tst := ShiftOver(tst, mask);
        lvl := lvl + 1;
      }
      assert rows == RowsWith(old(rows), heads, t, h);
    }

    /** rt_timer_start: whatever the number of rows and of tick wraps, the timer goes to its place in the order of
        the true deadlines, behind those due at the same time. */
    method Start(t: Id)
      requires Valid() && t in init
      modifies this`rows, this`active, this`timeout, this`random, this`due, this`height
      ensures Valid() && active == old(active) + {t} && due == old(due)[t := now + init[t]]
      ensures Full() == InsertAt(Without(old(Full()), t), Pos(Without(old(Full()), t), old(due), now + init[t]), t)
      ensures old(OnTime()) ==> OnTime()
    {
      hide Sound, Without, Pos, InsertAt, NotPast;
      RemoveTimer(t);
      StartRemoved(t);
      if old(OnTime()) {
        ArmNotPast(old(Full()), old(due), now, t, now + init[t]);
      }
    }

    method StartRemoved(t: Id)
      requires Valid() && t in init && t !in active
      modifies this`rows, this`active, this`timeout, this`random, this`due, this`height
      ensures Valid() && active == old(active) + {t} && due == old(due)[t := now + init[t]]
      ensures Full() == InsertAt(old(Full()), Pos(old(Full()), old(due), now + init[t]), t)
    {
      hide Sound, RowsWith, RowsOk, Sorted, NoRepeats, Stamped, Pos, InsertAt, Places;
      ghost var d := now + init[t];
      SoundParts(rows, height, due, timeout, init, active, tick, now);
      var dt := (tick + init[t]) % TICKS;
      assert dt == d % TICKS;
      var heads := Search(rows, timeout, dt, height, due, now, d);
      PlacesFit(rows, due, d, heads);
      timeout := timeout[t := dt];
      ghost var h := Link(t, heads);
      active := active + {t};
      ArmSound(old(rows), height, due, old(timeout), init, old(active), tick, now, t, heads, h);
      due, height := due[t := d], height[t := h];
    }

    /** rt_timer_stop: an error for a timer that is not armed. */
    method Stop(t: Id) returns (ok: bool)
      requires Valid()
      modifies this`rows, this`active
      ensures Valid() && ok == (t in old(active)) && active == old(active) - {t} && Full() == Without(old(Full()), t)
      ensures old(OnTime()) ==> OnTime()
    {
      hide RowsOk, Sorted, NoRepeats, Stamped;
      if t !in active {
        return false;
      }
      RemoveTimer(t);
      return true;
    }

    /** The clock interrupt moves the tick on before it runs the check. */
    method Tick()
      requires Valid() && OnTime()
      modifies this`tick, this`now
      ensures Valid() && now == old(now) + 1 && Full() == old(Full())
    {
      hide RowsOk, Sorted, NoRepeats;
      tick := (tick + 1) % TICKS;
      now := now + 1;
    }

    /** The first armed timer fires; fired is the callback that rt_timer_check makes. */
    method FireFirst() returns (fired: Id)
      requires Valid() && Full() != []
      modifies this`rows, this`active, this`timeout, this`random, this`due, this`height
      ensures Valid() && fired == old(Full())[0]
      ensures (Full(), due) == RoundOf(old(Full()), old(due), init, periodic, now)
    {
      hide Sound, Pos, InsertAt, Stamped, Sorted, NoRepeats, RowsOk, Without;
      SoundParts(rows, height, due, timeout, init, active, tick, now);
      fired := rows[levels - 1][0];
      RemoveTimer(fired);
      RemoveFirst(old(Full()));
      if fired in periodic {
        StartRemoved(fired);
      }
    }

    /** rt_timer_check, with callbacks that do not touch timers. */
    method Check() returns (fired: seq<Id>)
      requires Valid()
      requires !Stuck(Full(), due, init, periodic, now)
      modifies this`rows, this`active, this`timeout, this`random, this`due, this`height
      ensures Valid() && OnTime()
      ensures var n := Pos(old(Full()), old(due), now);
        && fired == old(Full())[..n]
        && (Full(), due) == Drain(old(Full()), old(due), init, periodic, now, n)
        && Drained(old(Full()), old(due), init, periodic, now, n, Full(), due)
      ensures forall x :: x in Full() ==> x in due && due[x] > now
    {
      hide Sound, Pos, Drained, RoundOf, Underway, Drain, Expired, Stamped, Sorted, NoRepeats, RowsOk, Stuck;
      ghost var n, row0, due0 := Pos(Full(), due, now), Full(), due;
      SoundParts(rows, height, due, timeout, init, active, tick, now);
      DrainKeeps(row0, due0, init, periodic, now, n);
      fired := [];
      CheckStarts(row0, due0, init, periodic, now);
      while rows[levels - 1] != []
        invariant Valid() && Underway(row0, due0, Full(), due, init, periodic, now, fired)
        decreases n - |fired|
      {
        SoundParts(rows, height, due, timeout, init, active, tick, now);
        CheckRound(row0, due0, Full(), due, timeout, init, periodic, now, fired);
        var t := rows[levels - 1][0];
        if !Expired(tick, timeout[t]) {
          break;
        }
        var first := FireFirst();
        fired := fired + [first];
      }
      CheckOver(row0, due0, Full(), due, init, periodic, now, fired);
    }
  }
}
