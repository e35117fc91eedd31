/** The page allocator under the slab (src/slab.c:211-294): a list of runs of free pages, threaded through their first
    pages. Pages are numbered from the start of the heap. */
module SlabPages {
  import opened Align
  import opened Stores

  datatype Run = Run(start: int, len: nat)

  const NULL: int := -1

  /** The runs lie in address order, none is empty, and between two of them at least one page is taken. */
  ghost predicate Ordered(runs: seq<Run>) {
    runs == []
    || (runs[0].len > 0 && Ordered(runs[1..]) && (|runs| > 1 ==> runs[0].start + runs[0].len < runs[1].start))
  }

  predicate InRun(r: Run, k: int) { r.start <= k < r.start + r.len }

  predicate InRuns(runs: seq<Run>, k: int) {
    runs != [] && (InRun(runs[0], k) || InRuns(runs[1..], k))
  }

  function Count(runs: seq<Run>): nat {
    if runs == [] then 0 else runs[0].len + Count(runs[1..])
  }

  /** The first run that is long enough, or the number of runs. */
  function FirstFit(runs: seq<Run>, n: nat): (i: nat)
    ensures i <= |runs| && (forall j :: 0 <= j < i ==> runs[j].len < n) && (i < |runs| ==> runs[i].len >= n)
  {
    if runs == [] || runs[0].len >= n then 0 else 1 + FirstFit(runs[1..], n)
  }

  /** n pages are taken off the front of run i. */
  function Taken(runs: seq<Run>, i: nat, n: nat): seq<Run>
    requires i < |runs| && n <= runs[i].len
  {
    runs[..i] + (if runs[i].len > n then [Run(runs[i].start + n, runs[i].len - n)] else []) + runs[i + 1..]
  }

  /** n pages from s on are given back. */
  function Given(runs: seq<Run>, s: int, n: nat): seq<Run> {
    if runs == [] then [Run(s, n)]
    else
      var b, rest := runs[0], runs[1..];
      if b.start + b.len == s then
        if rest != [] && s + n == rest[0].start then [Run(b.start, b.len + n + rest[0].len)] + rest[1..]
        else [Run(b.start, b.len + n)] + rest
      else if b.start == s + n then [Run(s, n + b.len)] + rest
      else if b.start > s + n then [Run(s, n)] + runs
      else [b] + Given(rest, s, n)
  }

  lemma {:induction false} AfterFirst(runs: seq<Run>, k: int)
    requires Ordered(runs) && InRuns(runs, k)
    ensures runs[0].start <= k && (InRuns(runs[1..], k) ==> k > runs[0].start + runs[0].len)
  {
    if InRuns(runs[1..], k) {
      AfterFirst(runs[1..], k);
    }
  }

  /** Giving pages back keeps the list in order and merged, and adds exactly those pages. */
  lemma {:induction false} GivenOrdered(runs: seq<Run>, s: int, n: nat)
    requires Ordered(runs) && n > 0 && forall k :: s <= k < s + n ==> !InRuns(runs, k)
    ensures Ordered(Given(runs, s, n)) && Count(Given(runs, s, n)) == Count(runs) + n
    ensures Given(runs, s, n)[0].start == if runs == [] || s < runs[0].start then s else runs[0].start
  {
    if runs == [] {
      assert [Run(s, n)][1..] == [];
    } else {
      var b, rest := runs[0], runs[1..];
      assert s <= b.start < s + n ==> InRuns(runs, b.start);
      assert b.start <= s < b.start + b.len ==> InRuns(runs, s);
      assert b.start <= s + n - 1 < b.start + b.len ==> InRuns(runs, s + n - 1);
      if b.start + b.len == s {
        if rest != [] && s + n == rest[0].start {
          assert Given(runs, s, n)[1..] == rest[1..];
        } else {
          assert Given(runs, s, n)[1..] == rest;
          if rest != [] {
            assert s <= rest[0].start < s + n ==> InRuns(rest, rest[0].start) && InRuns(runs, rest[0].start);
          }
        }
      } else if b.start == s + n {
        assert Given(runs, s, n)[1..] == rest;
      } else if b.start > s + n {
        assert Given(runs, s, n)[1..] == runs;
      } else {
        forall k | s <= k < s + n
          ensures !InRuns(rest, k)
        {
          assert !InRuns(runs, k);
        }
        GivenOrdered(rest, s, n);
        assert Given(runs, s, n)[1..] == Given(rest, s, n);
      }
    }
  }

  lemma {:induction false} GivenPages(runs: seq<Run>, s: int, n: nat, k: int)
    requires Ordered(runs) && n > 0
    ensures InRuns(Given(runs, s, n), k) <==> InRuns(runs, k) || s <= k < s + n
  {
    if runs == [] {
      assert [Run(s, n)][1..] == [];
    } else {
      var b, rest, g := runs[0], runs[1..], Given(runs, s, n);
      if b.start + b.len == s {
        if rest != [] && s + n == rest[0].start {
          assert g[1..] == rest[1..];
        } else {
          assert g[1..] == rest;
        }
      } else if b.start == s + n {
        assert g[1..] == rest;
      } else if b.start > s + n {
        assert g[1..] == runs;
      } else {
        GivenPages(rest, s, n, k);
        assert g[1..] == Given(rest, s, n);
      }
    }
  }

  lemma {:induction false} TakenOrdered(runs: seq<Run>, i: nat, n: nat)
    requires Ordered(runs) && i < |runs| && 0 < n <= runs[i].len
    ensures Ordered(Taken(runs, i, n)) && Count(Taken(runs, i, n)) == Count(runs) - n
    ensures Taken(runs, i, n) != [] ==> Taken(runs, i, n)[0].start >= runs[0].start
  {
    var t := Taken(runs, i, n);
    if i == 0 {
      if runs[0].len > n {
        assert t[1..] == runs[1..];
      } else {
        assert t == runs[1..];
      }
    } else {
      TakenOrdered(runs[1..], i - 1, n);
      assert t[1..] == Taken(runs[1..], i - 1, n);
    }
  }

  lemma {:induction false} TakenPages(runs: seq<Run>, i: nat, n: nat, k: int)
    requires Ordered(runs) && i < |runs| && 0 < n <= runs[i].len
    ensures InRuns(Taken(runs, i, n), k) <==> InRuns(runs, k) && !(runs[i].start <= k < runs[i].start + n)
    ensures runs[i].start <= k < runs[i].start + n ==> InRuns(runs, k)
  {
    var t := Taken(runs, i, n);
    if i == 0 {
      if InRuns(runs, k) {
        AfterFirst(runs, k);
      }
      if runs[0].len > n {
        assert t[1..] == runs[1..];
      } else {
        assert t == runs[1..];
      }
    } else {
      TakenPages(runs[1..], i - 1, n, k);
      assert t[1..] == Taken(runs[1..], i - 1, n);
      if InRun(runs[0], k) && runs[i].start <= k < runs[i].start + n {
        AfterFirst(runs, k);
        assert false;
      }
    }
  }

  /** The list is determined by which pages are free, whatever the order in which they were taken and given back. */
  lemma {:induction false} Canonical(a: seq<Run>, b: seq<Run>)
    requires Ordered(a) && Ordered(b) && forall k :: InRuns(a, k) <==> InRuns(b, k)
    ensures a == b
  {
    if a == [] || b == [] {
      if a != [] {
        assert InRuns(a, a[0].start);
      }
      if b != [] {
        assert InRuns(b, b[0].start);
      }
    } else {
      SameFirst(a, b);
      SameFirst(b, a);
      forall k
        ensures InRuns(a[1..], k) <==> InRuns(b[1..], k)
      {
        assert InRuns(a, k) <==> InRuns(b, k);
        if InRuns(a, k) {
          AfterFirst(a, k);
          AfterFirst(b, k);
        }
      }
      Canonical(a[1..], b[1..]);
    }
  }

  lemma SameFirst(a: seq<Run>, b: seq<Run>)
    requires Ordered(a) && Ordered(b) && a != [] && b != [] && forall k :: InRuns(a, k) <==> InRuns(b, k)
    ensures a[0].start >= b[0].start && (a[0].start == b[0].start ==> a[0].len <= b[0].len)
  {
    var s := a[0].start;
    assert InRuns(a, s);
    AfterFirst(b, s);
    if s == b[0].start && a[0].len > b[0].len {
      var k := s + b[0].len;
      assert InRun(a[0], k) && InRuns(a, k);
      AfterFirst(b, k);
    }
  }

  /** Giving back pages just taken restores the list exactly, links and all. */
  lemma RoundTrip(runs: seq<Run>, n: nat)
    requires Ordered(runs) && n > 0 && FirstFit(runs, n) < |runs|
    ensures var i := FirstFit(runs, n); Given(Taken(runs, i, n), runs[i].start, n) == runs
  {
    var i := FirstFit(runs, n);
    var t, s := Taken(runs, i, n), runs[i].start;
    TakenOrdered(runs, i, n);
    forall k
      ensures InRuns(Given(t, s, n), k) <==> InRuns(runs, k)
      ensures s <= k < s + n ==> !InRuns(t, k)
    {
      TakenPages(runs, i, n, k);
      GivenPages(t, s, n, k);
    }
    GivenOrdered(t, s, n);
    Canonical(Given(t, s, n), runs);
  }

  // ---------------------------------------------------------------- the list in memory

  function StartOf(runs: seq<Run>, i: nat): int {
    if i < |runs| then runs[i].start else NULL
  }

  /** next and page of the first page of each run. */
  ghost predicate Linked(next: map<int, int>, page: map<int, nat>, head: int, runs: seq<Run>) {
    var ok :=
      && head == StartOf(runs, 0)
      && (forall i :: 0 <= i < |runs| ==> runs[i].start >= 0 && runs[i].start in next && runs[i].start in page)
      && (forall i: nat :: i < |runs| ==> next[runs[i].start] == StartOf(runs, i + 1) && page[runs[i].start] == runs[i].len);
    ok
  }

  lemma LinkedAt(next: map<int, int>, page: map<int, nat>, head: int, runs: seq<Run>, i: nat)
    requires Linked(next, page, head, runs)
    ensures i == 0 ==> head == StartOf(runs, 0)
    ensures i < |runs| ==> var b := runs[i].start;
      b >= 0 && b in next && b in page && next[b] == StartOf(runs, i + 1) && page[b] == runs[i].len
  {
  }

  lemma {:induction false} StartsApart(runs: seq<Run>, i: nat, j: nat)
    requires Ordered(runs) && i < j < |runs|
    ensures runs[i].start + runs[i].len < runs[j].start && runs[i].len > 0
  {
    if i > 0 {
      StartsApart(runs[1..], i - 1, j - 1);
    } else if j > 1 {
      StartsApart(runs[1..], 0, j - 1);
    }
  }

  lemma StartsDiffer(runs: seq<Run>, m: nat)
    requires Ordered(runs) && m < |runs|
    ensures forall k: nat :: k < |runs| && k != m ==> runs[k].start != runs[m].start
  {
    hide Ordered;
    forall k: nat | k < |runs| && k != m
      ensures runs[k].start != runs[m].start
    {
      if k < m {
        StartsApart(runs, k, m);
      } else {
        StartsApart(runs, m, k);
      }
    }
  }

  /** No run starts inside a run, or on a page that is not free. */
  lemma NotAStart(runs: seq<Run>, x: int)
    requires Ordered(runs)
    requires (exists i :: 0 <= i < |runs| && runs[i].start < x <= runs[i].start + runs[i].len) || !InRuns(runs, x)
    ensures forall k: nat :: k < |runs| ==> runs[k].start != x
  {
    hide Ordered;
    if i: nat :| i < |runs| && runs[i].start < x <= runs[i].start + runs[i].len {
      forall k: nat | k < |runs|
        ensures runs[k].start != x
      {
        if k < i {
          StartsApart(runs, k, i);
        } else if k > i {
          StartsApart(runs, i, k);
        }
      }
    }
    if !InRuns(runs, x) {
      forall k: nat | k < |runs|
        ensures runs[k].start != x
      {
        if runs[k].start == x {
          NoneEmpty(runs);
          HasStart(runs, k);
        }
      }
    }
  }

  lemma {:induction false} HasStart(runs: seq<Run>, k: nat)
    requires k < |runs| && runs[k].len > 0
    ensures InRuns(runs, runs[k].start)
  {
    if k > 0 {
      HasStart(runs[1..], k - 1);
    }
  }

  lemma {:induction false} NoneEmpty(runs: seq<Run>)
    requires Ordered(runs)
    ensures forall i :: 0 <= i < |runs| ==> runs[i].len > 0
  {
    if runs != [] {
      NoneEmpty(runs[1..]);
      assert forall i :: 0 < i < |runs| ==> runs[i] == runs[1..][i - 1];
    }
  }

  /** The node at a is as it was, except perhaps where it leads. */
  ghost predicate Untouched(next: map<int, int>, page: map<int, nat>, next': map<int, int>, page': map<int, nat>, a: int, leads: bool) {
    a in next && a in page && a in next' && a in page' && page'[a] == page[a] && (leads || next'[a] == next[a])
  }

  /** Run i is replaced by the runs mid; the link that led to it now leads to mid. */
  lemma Replaced(next: map<int, int>, page: map<int, nat>, head: int, runs: seq<Run>, i: nat, j: nat, mid: seq<Run>,
                 next': map<int, int>, page': map<int, nat>, head': int)
    requires Linked(next, page, head, runs) && Ordered(runs) && i <= j <= |runs| && |mid| <= 1
    requires |mid| == 1 ==>
      (var b := mid[0].start;
       b >= 0 && b in next' && b in page' && next'[b] == StartOf(runs, j) && page'[b] == mid[0].len)
    requires forall k: nat :: k < |runs| && !(i <= k < j) ==> Untouched(next, page, next', page', runs[k].start, k + 1 == i)
    requires var x := if |mid| == 1 then mid[0].start else StartOf(runs, j);
             if i == 0 then head' == x else head' == head && runs[i - 1].start in next' && next'[runs[i - 1].start] == x
    ensures Linked(next', page', head', runs[..i] + mid + runs[j..])
  {
    hide Linked, Ordered, StartOf;
    var r := runs[..i] + mid + runs[j..];
    forall k: nat | k < |r|
      ensures NodeOk(next', page', r, k)
    {
      ReplacedAt(next, page, head, runs, i, j, mid, next', page', head', k);
    }
    FirstOf(runs, i, j, mid);
    LinkedAt(next, page, head, runs, 0);
    AllLinked(next', page', head', r);
  }

  ghost predicate NodeOk(next: map<int, int>, page: map<int, nat>, runs: seq<Run>, k: nat) {
    k < |runs| ==>
      var b := runs[k].start; b >= 0 && b in next && b in page && next[b] == StartOf(runs, k + 1) && page[b] == runs[k].len
  }

  lemma AllLinked(next: map<int, int>, page: map<int, nat>, head: int, runs: seq<Run>)
    requires head == StartOf(runs, 0) && forall k: nat :: k < |runs| ==> NodeOk(next, page, runs, k)
    ensures Linked(next, page, head, runs)
  {
    hide StartOf;
    forall i: nat | i < |runs|
      ensures runs[i].start >= 0 && runs[i].start in next && runs[i].start in page
      ensures next[runs[i].start] == StartOf(runs, i + 1) && page[runs[i].start] == runs[i].len
    {
      assert NodeOk(next, page, runs, i);
    }
  }

  lemma FirstOf(runs: seq<Run>, i: nat, j: nat, mid: seq<Run>)
    requires i <= j <= |runs| && |mid| <= 1
    ensures var r := runs[..i] + mid + runs[j..];
            StartOf(r, 0) == if i > 0 then StartOf(runs, 0) else if |mid| == 1 then mid[0].start else StartOf(runs, j)
  {
  }

  lemma ReplacedAt(next: map<int, int>, page: map<int, nat>, head: int, runs: seq<Run>, i: nat, j: nat, mid: seq<Run>,
                   next': map<int, int>, page': map<int, nat>, head': int, k: nat)
    requires Linked(next, page, head, runs) && i <= j <= |runs| && |mid| <= 1
    requires |mid| == 1 ==>
      (var b := mid[0].start;
       b >= 0 && b in next' && b in page' && next'[b] == StartOf(runs, j) && page'[b] == mid[0].len)
    requires forall k: nat :: k < |runs| && !(i <= k < j) ==> Untouched(next, page, next', page', runs[k].start, k + 1 == i)
    requires var x := if |mid| == 1 then mid[0].start else StartOf(runs, j);
             i > 0 ==> runs[i - 1].start in next' && next'[runs[i - 1].start] == x
    ensures NodeOk(next', page', runs[..i] + mid + runs[j..], k)
  {
    hide Linked;
    var r := runs[..i] + mid + runs[j..];
    var shift := i + |mid|;
    if k < |r| {
      if k < i {
        assert r[k] == runs[k] && Untouched(next, page, next', page', runs[k].start, k + 1 == i);
        LinkedAt(next, page, head, runs, k);
        assert k + 1 < i ==> r[k + 1] == runs[k + 1];
        assert k + 1 == i && |mid| == 1 ==> r[k + 1] == mid[0];
        assert k + 1 == i && |mid| == 0 && j < |runs| ==> r[k + 1] == runs[j];
      } else if k < shift {
        assert r[k] == mid[0];
        assert j < |runs| ==> r[k + 1] == runs[j];
      } else {
        var o := k - shift + j;
        assert r[k] == runs[o] && Untouched(next, page, next', page', runs[o].start, o + 1 == i);
        LinkedAt(next, page, head, runs, o);
        assert o + 1 < |runs| ==> r[k + 1] == runs[o + 1];
      }
    }
  }

  /** The search of rt_slab_page_free goes past this run. */
  predicate Passes(r: Run, s: int, n: nat) {
    r.start + r.len != s && r.start != s + n && r.start < s + n
  }

  lemma {:induction false} GivenPast(runs: seq<Run>, s: int, n: nat, i: nat)
    requires i <= |runs| && forall j :: 0 <= j < i ==> Passes(runs[j], s, n)
    ensures Given(runs, s, n) == runs[..i] + Given(runs[i..], s, n)
  {
    if i == 0 {
      assert runs[..0] + Given(runs[0..], s, n) == Given(runs, s, n);
    } else {
      GivenPast(runs[1..], s, n, i - 1);
      assert Given(runs, s, n) == [runs[0]] + Given(runs[1..], s, n) by {
        assert Passes(runs[0], s, n);
      }
      hide Given;
      assert runs[1..][..i - 1] == runs[1..i] && runs[1..][i - 1..] == runs[i..];
      assert runs[..i] == [runs[0]] + runs[1..i];
      JoinAssoc([runs[0]], runs[1..i], Given(runs[i..], s, n));
    }
  }

  lemma JoinAssoc(a: seq<Run>, b: seq<Run>, c: seq<Run>)
    ensures (a + b) + c == a + (b + c)
  {
  }

  ghost predicate Inside(runs: seq<Run>, last: nat) {
    forall p :: InRuns(runs, p) ==> 0 <= p < last
  }

  /** t is the record at the front of a free page. */
  ghost predicate NodeIn(t: Region, pageSize: nat, node: nat, runs: seq<Run>) {
    exists p :: InRuns(runs, p) && t == NodeAt(p, pageSize, node)
  }

  function NodeAt(p: int, pageSize: nat, node: nat): Region {
    Region(p * pageSize, p * pageSize + node)
  }

  lemma NodeThere(p: int, pageSize: nat, node: nat, runs: seq<Run>)
    requires InRuns(runs, p)
    ensures NodeIn(NodeAt(p, pageSize, node), pageSize, node, runs)
  {
  }

  lemma NodeFits(p: int, last: nat, pageSize: nat, node: nat)
    requires 0 <= p < last && node <= pageSize
    ensures 0 <= p * pageSize && p * pageSize + node <= last * pageSize
  {
    Product(0, p, pageSize);
    Product(p + 1, last, pageSize);
    assert (p + 1) * pageSize == p * pageSize + pageSize;
  }

  class Pages {
    const pageSize: nat                 // RT_MM_PAGE_SIZE
    const node: nat                     // the bytes of next and page at the front of a free page
    const last: nat                     // the page behind the heap
    const ram: Ram
    var head: int                       // page_list
    var next: map<int, int>
    var page: map<int, nat>
    ghost var runs: seq<Run>

    ghost predicate Valid()
      reads this
    {
      Ordered(runs) && Linked(next, page, head, runs) && Inside(runs, last) && Sizes()
    }

    ghost predicate Sizes() {
      node <= pageSize && ram.data.Length == last * pageSize
    }

    /** rt_slab_page_init. */
    constructor (start: int, npages: nat, pageSize: nat, node: nat, ram: Ram)
      requires start >= 0 && npages > 0 && node <= pageSize && ram.data.Length == (start + npages) * pageSize && ram.Written()
      modifies ram`touched, ram.data
      ensures Valid() && runs == [Run(start, npages)] && ram.Written()
      ensures this.pageSize == pageSize && this.node == node && this.last == start + npages && this.ram == ram
    {
      this.pageSize, this.node, last, this.ram := pageSize, node, start + npages, ram;
      head, next, page := start, map[start := NULL], map[start := npages];
      runs := [Run(start, npages)];
      new;
      InsideOne(start, npages);
      Node(start);
    }

    /** A store to next or page of the free page p. */
    method Node(p: int)
      requires Sizes() && ram.Written() && 0 <= p < last
      modifies ram`touched, ram.data
      ensures ram.Written() && ram.touched == old(ram.touched) + {NodeAt(p, pageSize, node)}
    {
      NodeFits(p, last, pageSize, node);
      ram.Touch(p * pageSize, node);
    }

    /** A store through the pointer to a link: prev is the node before, or NULL for the list head. */
    method Link(prev: int, x: int)
      requires Sizes() && ram.Written() && prev < last && (prev != NULL ==> 0 <= prev)
      modifies this`head, this`next, ram`touched, ram.data
      ensures ram.Written()
      ensures ram.touched == old(ram.touched) + if prev == NULL then {} else {NodeAt(prev, pageSize, node)}
      ensures if prev == NULL then head == x && next == old(next) else head == old(head) && next == old(next)[prev := x]
    {
      if prev == NULL {
        head := x;
      } else {
        next := next[prev := x];
        Node(prev);
      }
    }

    /** rt_slab_page_alloc: the first run in address order that is long enough gives up its front. */
    method Alloc(npages: nat) returns (b: int)
      requires Valid() && ram.Written()
      modifies this, ram`touched, ram.data
      ensures Valid() && ram.Written()
      ensures b == NULL ==> ram.touched == old(ram.touched) && ram.data[..] == old(ram.data[..])
      ensures forall t :: t in ram.touched ==> t in old(ram.touched) || NodeIn(t, pageSize, node, old(runs))
      ensures (var i := FirstFit(old(runs), npages);
               if npages == 0 || i == |old(runs)| then b == NULL && runs == old(runs)
               else b == old(runs)[i].start && runs == Taken(old(runs), i, npages))
    {
      hide Ordered, Linked, InRuns, NodeIn, NodeAt, Inside, FirstFit, Taken;
      b := NULL;
      if npages == 0 {
        return;
      }
      var prev := NULL;
      ghost var i := 0;
      LinkedAt(next, page, head, runs, 0);
      b := head;
      while b != NULL
        invariant i <= |runs| && b == StartOf(runs, i) && prev == (if i == 0 then NULL else runs[i - 1].start)
        invariant forall j :: 0 <= j < i ==> runs[j].len < npages
        invariant Valid() && runs == old(runs)
        invariant ram.Written() && ram.touched == old(ram.touched) && ram.data[..] == old(ram.data[..])
        decreases |runs| - i
      {
        LinkedAt(next, page, head, runs, i);
        if page[b] >= npages {
          FirstFitIs(runs, npages, i);
          TakenOrdered(runs, i, npages);
          TakenNodes(runs, i, npages, last, pageSize, node);
        }
        if page[b] > npages {
          var n := b + npages;
          ghost var next0, page0, head0 := next, page, head;
          next := next[n := next[b]];
          page := page[n := page[b] - npages];
          Node(n);
          if i > 0 {
            LinkedAt(next0, page0, head0, runs, i - 1);
          }
          Link(prev, n);
          CutLinked(next0, page0, head0, runs, i, npages, next, page, head);
          runs := Taken(runs, i, npages);
          return;
        }
        if page[b] == npages {
          ghost var next0, head0 := next, head;
          if i > 0 {
            LinkedAt(next, page, head, runs, i - 1);
          }
          Link(prev, next[b]);
          DropLinked(next0, page, head0, runs, i, next, head);
          TakenWhole(runs, i);
          runs := Taken(runs, i, npages);
          return;
        }
        prev := b;
        b := next[b];
        i := i + 1;
      }
      LinkedAt(next, page, head, runs, i);
      FirstFitIs(runs, npages, i);
    }

    /** rt_slab_page_free of pages that are not free: they join the run before, the run behind, or both. */
    method Free(addr: int, npages: nat)
      requires Valid() && ram.Written() && addr >= 0 && npages != 0 && addr + npages <= last
      requires forall k :: addr <= k < addr + npages ==> !InRuns(runs, k)
      modifies this, ram`touched, ram.data
      ensures Valid() && runs == Given(old(runs), addr, npages) && ram.Written()
      ensures forall t :: t in ram.touched ==> t in old(ram.touched) || NodeIn(t, pageSize, node, runs)
    {
      hide Ordered, Linked, InRuns, Given, NodeIn, NodeAt, Inside;
      var n, prev := addr, NULL;
      ghost var i, bs := 0, runs;
      LinkedAt(next, page, head, runs, 0);
      var b := head;
      while b != NULL
        invariant i <= |runs| && b == StartOf(runs, i) && prev == (if i == 0 then NULL else runs[i - 1].start)
        invariant forall j :: 0 <= j < i ==> Passes(runs[j], addr, npages)
        invariant Valid() && runs == bs && ram.Written() && ram.touched == old(ram.touched)
        decreases |runs| - i
      {
        LinkedAt(next, page, head, runs, i);
        if b + page[b] == n {
          GivenPast(runs, addr, npages, i);
          JoinAt(b, addr, npages, i);
          return;
        }
        if b == n + npages {
          GivenPast(runs, addr, npages, i);
          PutBefore(b, prev, addr, npages, i);
          return;
        }
        if b > n + npages {
          break;
        }
        prev := b;
        b := next[b];
        i := i + 1;
      }
      GivenPast(runs, addr, npages, i);
      LinkedAt(next, page, head, runs, i);
      Put(b, prev, addr, npages, i);
    }

    /** The pages follow run i, and join the next one as well if they close the gap. */
    method JoinAt(b: int, addr: int, npages: nat, ghost i: nat)
      requires Valid() && ram.Written() && addr >= 0 && npages != 0 && addr + npages <= last
      requires forall k :: addr <= k < addr + npages ==> !InRuns(runs, k)
      requires i < |runs| && b == runs[i].start && b + runs[i].len == addr
      requires Given(runs, addr, npages) == runs[..i] + Given(runs[i..], addr, npages)
      modifies this, ram`touched, ram.data
      ensures Valid() && runs == Given(old(runs), addr, npages) && ram.Written()
      ensures forall t :: t in ram.touched ==> t in old(ram.touched) || NodeIn(t, pageSize, node, runs)
    {
      hide Ordered, Linked, InRuns, Given, NodeIn, NodeAt, Inside;
      LinkedAt(next, page, head, runs, i);
      LinkedAt(next, page, head, runs, i + 1);
      GivenOrdered(runs, addr, npages);
      GivenNodes(runs, addr, npages, last, pageSize, node);
      ghost var next0, page0 := next, page;
      page := page[b := page[b] + npages];
      if b + page[b] == next[b] && next[b] != NULL {
        page := page[b := page[b] + page[next[b]]];
        next := next[b := next[next[b]]];
        JoinBoth(next0, page0, head, runs, i, addr, npages, next, page);
      } else {
        JoinFront(next0, page0, head, runs, i, addr, npages, page);
      }
      Node(b);
      runs := Given(runs, addr, npages);
    }

    /** The pages come just before run i. */
    method PutBefore(b: int, prev: int, addr: int, npages: nat, ghost i: nat)
      requires Valid() && ram.Written() && addr >= 0 && npages != 0 && addr + npages <= last
      requires forall k :: addr <= k < addr + npages ==> !InRuns(runs, k)
      requires i < |runs| && b == runs[i].start == addr + npages && prev == (if i == 0 then NULL else runs[i - 1].start)
      requires Given(runs, addr, npages) == runs[..i] + Given(runs[i..], addr, npages)
      modifies this, ram`touched, ram.data
      ensures Valid() && runs == Given(old(runs), addr, npages) && ram.Written()
      ensures forall t :: t in ram.touched ==> t in old(ram.touched) || NodeIn(t, pageSize, node, runs)
    {
      hide Ordered, Linked, InRuns, Given, NodeIn, NodeAt, Inside;
      LinkedAt(next, page, head, runs, i);
      if i > 0 {
        LinkedAt(next, page, head, runs, i - 1);
      }
      GivenOrdered(runs, addr, npages);
      GivenNodes(runs, addr, npages, last, pageSize, node);
      ghost var next0, page0, head0 := next, page, head;
      page := page[addr := page[b] + npages];
      next := next[addr := next[b]];
      Node(addr);
      Link(prev, addr);
      JoinBack(next0, page0, head0, runs, i, addr, npages, next, page, head);
      runs := Given(runs, addr, npages);
    }

    /** The pages touch no run, and go between run i and the one before. */
    method Put(b: int, prev: int, addr: int, npages: nat, ghost i: nat)
      requires Valid() && ram.Written() && addr >= 0 && npages != 0 && addr + npages <= last
      requires forall k :: addr <= k < addr + npages ==> !InRuns(runs, k)
      requires i <= |runs| && b == StartOf(runs, i) && prev == (if i == 0 then NULL else runs[i - 1].start)
      requires i < |runs| ==> runs[i].start > addr + npages
      requires Given(runs, addr, npages) == runs[..i] + Given(runs[i..], addr, npages)
      modifies this, ram`touched, ram.data
      ensures Valid() && runs == Given(old(runs), addr, npages) && ram.Written()
      ensures forall t :: t in ram.touched ==> t in old(ram.touched) || NodeIn(t, pageSize, node, runs)
    {
      hide Ordered, Linked, InRuns, Given, NodeIn, NodeAt, Inside;
      if i > 0 {
        LinkedAt(next, page, head, runs, i - 1);
      }
      GivenOrdered(runs, addr, npages);
      GivenNodes(runs, addr, npages, last, pageSize, node);
      ghost var next0, page0, head0 := next, page, head;
      page := page[addr := npages];
      next := next[addr := b];
      Node(addr);
      Link(prev, addr);
      PutBetween(next0, page0, head0, runs, i, addr, npages, next, page, head);
      runs := Given(runs, addr, npages);
    }
  }

  lemma InsideOne(start: int, n: nat)
    requires start >= 0
    ensures Inside([Run(start, n)], start + n)
  {
    var r := [Run(start, n)];
    assert r[1..] == [];
    forall p | InRuns(r, p)
      ensures 0 <= p < start + n
    {
      assert InRuns(r, p) <==> InRun(r[0], p) || InRuns(r[1..], p);
    }
  }

  lemma TakenWhole(runs: seq<Run>, i: nat)
    requires i < |runs|
    ensures Taken(runs, i, runs[i].len) == runs[..i] + [] + runs[i + 1..]
  {
  }

  /** The pages an allocation writes to are free before it. */
  lemma TakenNodes(runs: seq<Run>, i: nat, n: nat, last: nat, pageSize: nat, node: nat)
    requires Ordered(runs) && Inside(runs, last) && i < |runs| && 0 < n <= runs[i].len
    ensures Inside(Taken(runs, i, n), last)
    ensures n < runs[i].len ==>
      0 <= runs[i].start + n < last && NodeIn(NodeAt(runs[i].start + n, pageSize, node), pageSize, node, runs)
    ensures i > 0 ==>
      0 <= runs[i - 1].start < last && NodeIn(NodeAt(runs[i - 1].start, pageSize, node), pageSize, node, runs)
  {
    hide Ordered, InRuns, Taken, NodeIn, NodeAt;
    forall k | InRuns(Taken(runs, i, n), k)
      ensures 0 <= k < last
    {
      TakenPages(runs, i, n, k);
    }
    NoneEmpty(runs);
    if n < runs[i].len {
      HasPage(runs, i, runs[i].start + n);
      NodeThere(runs[i].start + n, pageSize, node, runs);
    }
    if i > 0 {
      HasStart(runs, i - 1);
      NodeThere(runs[i - 1].start, pageSize, node, runs);
    }
  }

  lemma {:induction false} HasPage(runs: seq<Run>, i: nat, k: int)
    requires i < |runs| && runs[i].start <= k < runs[i].start + runs[i].len
    ensures InRuns(runs, k)
  {
    if i > 0 {
      HasPage(runs[1..], i - 1, k);
    }
  }

  /** The pages a free writes to are free after it. */
  lemma GivenNodes(runs: seq<Run>, s: int, n: nat, last: nat, pageSize: nat, node: nat)
    requires Ordered(runs) && Inside(runs, last) && 0 <= s && n > 0 && s + n <= last
    ensures Inside(Given(runs, s, n), last) && NodeIn(NodeAt(s, pageSize, node), pageSize, node, Given(runs, s, n))
    ensures forall i: nat :: i < |runs| ==>
      0 <= runs[i].start < last && NodeIn(NodeAt(runs[i].start, pageSize, node), pageSize, node, Given(runs, s, n))
  {
    hide Ordered, InRuns, Given, NodeIn, NodeAt;
    forall k
      ensures InRuns(Given(runs, s, n), k) <==> InRuns(runs, k) || s <= k < s + n
    {
      GivenPages(runs, s, n, k);
    }
    NodeThere(s, pageSize, node, Given(runs, s, n));
    NoneEmpty(runs);
    forall i: nat | i < |runs|
      ensures 0 <= runs[i].start < last && NodeIn(NodeAt(runs[i].start, pageSize, node), pageSize, node, Given(runs, s, n))
    {
      HasStart(runs, i);
      NodeThere(runs[i].start, pageSize, node, Given(runs, s, n));
    }
  }

  lemma FirstFitIs(runs: seq<Run>, n: nat, i: nat)
    requires i <= |runs| && (forall j :: 0 <= j < i ==> runs[j].len < n) && (i < |runs| ==> runs[i].len >= n)
    ensures FirstFit(runs, n) == i
  {
  }

  /** The nodes that none of the stores of an operation hits. */
  lemma OthersUntouched(next: map<int, int>, page: map<int, nat>, head: int, runs: seq<Run>, i: nat, j: nat, x: int,
                        next': map<int, int>, page': map<int, nat>)
    requires Linked(next, page, head, runs) && Ordered(runs) && i <= j <= |runs|
    requires forall a :: a in page && a != x ==> a in page' && page'[a] == page[a]
    requires forall a :: a in next && a != x && (i == 0 || a != runs[i - 1].start) ==> a in next' && next'[a] == next[a]
    requires i > 0 ==> runs[i - 1].start in next'
    requires forall k: nat :: k < |runs| && !(i <= k < j) ==> runs[k].start != x
    ensures forall k: nat :: k < |runs| && !(i <= k < j) ==> Untouched(next, page, next', page', runs[k].start, k + 1 == i)
  {
    hide Linked, Ordered;
    if i > 0 {
      StartsDiffer(runs, i - 1);
    }
    forall k: nat | k < |runs| && !(i <= k < j)
      ensures Untouched(next, page, next', page', runs[k].start, k + 1 == i)
    {
      LinkedAt(next, page, head, runs, k);
    }
  }

  lemma CutLinked(next: map<int, int>, page: map<int, nat>, head: int, runs: seq<Run>, i: nat, n: nat,
                  next': map<int, int>, page': map<int, nat>, head': int)
    requires Linked(next, page, head, runs) && Ordered(runs) && i < |runs| && 0 < n < runs[i].len
    requires (var b := runs[i].start;
              b in next && b in page && page' == page[b + n := runs[i].len - n]
              && (i == 0 ==> head' == b + n && next' == next[b + n := next[b]])
              && (i > 0 ==> head' == head && next' == next[b + n := next[b]][runs[i - 1].start := b + n]))
    ensures Linked(next', page', head', Taken(runs, i, n))
  {
    hide Ordered, Linked;
    var x := runs[i].start + n;
    NotAStart(runs, x);
    LinkedAt(next, page, head, runs, i);
    OthersUntouched(next, page, head, runs, i, i + 1, x, next', page');
    Replaced(next, page, head, runs, i, i + 1, [Run(x, runs[i].len - n)], next', page', head');
  }

  lemma DropLinked(next: map<int, int>, page: map<int, nat>, head: int, runs: seq<Run>, i: nat, next': map<int, int>, head': int)
    requires Linked(next, page, head, runs) && Ordered(runs) && i < |runs| && runs[i].start in next
    requires (i == 0 ==> head' == next[runs[i].start] && next' == next)
             && (i > 0 ==> head' == head && next' == next[runs[i - 1].start := next[runs[i].start]])
    ensures Linked(next', page, head', runs[..i] + [] + runs[i + 1..])
  {
    hide Ordered, Linked;
    LinkedAt(next, page, head, runs, i);
    StartsDiffer(runs, i);
    OthersUntouched(next, page, head, runs, i, i + 1, runs[i].start, next', page);
    Replaced(next, page, head, runs, i, i + 1, [], next', page, head');
  }

  /** The pages close the gap between two runs. */
  lemma JoinBoth(next: map<int, int>, page: map<int, nat>, head: int, runs: seq<Run>, i: nat, s: int, n: nat,
                 next': map<int, int>, page': map<int, nat>)
    requires Linked(next, page, head, runs) && Ordered(runs) && i + 1 < |runs|
    requires runs[i].start + runs[i].len == s && s + n == runs[i + 1].start
    requires Given(runs, s, n) == runs[..i] + Given(runs[i..], s, n)
    requires runs[i].start in next && runs[i + 1].start in next
    requires next' == next[runs[i].start := next[runs[i + 1].start]]
    requires page' == page[runs[i].start := runs[i].len + n + runs[i + 1].len]
    ensures Linked(next', page', head, Given(runs, s, n))
  {
    hide Ordered, Linked;
    var mid := [Run(runs[i].start, runs[i].len + n + runs[i + 1].len)];
    assert runs[i..][1..][1..] == runs[i + 2..];
    assert Given(runs, s, n) == runs[..i] + mid + runs[i + 2..];
    hide Given;
    LinkedAt(next, page, head, runs, i);
    LinkedAt(next, page, head, runs, i + 1);
    LinkedAt(next, page, head, runs, 0);
    SameLead(next, page, head, runs, i);
    StartsDiffer(runs, i);
    OthersUntouched(next, page, head, runs, i, i + 2, runs[i].start, next', page');
    Replaced(next, page, head, runs, i, i + 2, mid, next', page', head);
  }

  /** The link that leads to run i. */
  lemma SameLead(next: map<int, int>, page: map<int, nat>, head: int, runs: seq<Run>, i: nat)
    requires Linked(next, page, head, runs) && Ordered(runs) && i < |runs|
    ensures if i == 0 then head == runs[0].start
            else runs[i - 1].start in next && next[runs[i - 1].start] == runs[i].start && runs[i - 1].start != runs[i].start
  {
    hide Ordered, Linked;
    LinkedAt(next, page, head, runs, if i == 0 then 0 else i - 1);
    StartsDiffer(runs, i);
  }

  /** The pages follow a run. */
  lemma JoinFront(next: map<int, int>, page: map<int, nat>, head: int, runs: seq<Run>, i: nat, s: int, n: nat, page': map<int, nat>)
    requires Linked(next, page, head, runs) && Ordered(runs) && i < |runs|
    requires runs[i].start + runs[i].len == s && !(i + 1 < |runs| && s + n == runs[i + 1].start)
    requires Given(runs, s, n) == runs[..i] + Given(runs[i..], s, n)
    requires page' == page[runs[i].start := runs[i].len + n]
    ensures Linked(next, page', head, Given(runs, s, n))
  {
    hide Ordered, Linked;
    var mid := [Run(runs[i].start, runs[i].len + n)];
    assert runs[i..][1..] == runs[i + 1..];
    assert Given(runs, s, n) == runs[..i] + mid + runs[i + 1..];
    hide Given;
    LinkedAt(next, page, head, runs, i);
    SameLead(next, page, head, runs, i);
    StartsDiffer(runs, i);
    OthersUntouched(next, page, head, runs, i, i + 1, runs[i].start, next, page');
    Replaced(next, page, head, runs, i, i + 1, mid, next, page', head);
  }

  /** The pages come just before a run. */
  lemma JoinBack(next: map<int, int>, page: map<int, nat>, head: int, runs: seq<Run>, i: nat, s: int, n: nat,
                 next': map<int, int>, page': map<int, nat>, head': int)
    requires Linked(next, page, head, runs) && Ordered(runs) && i < |runs| && s >= 0 && n > 0 && !InRuns(runs, s)
    requires runs[i].start == s + n && Given(runs, s, n) == runs[..i] + Given(runs[i..], s, n)
    requires runs[i].start in next && page' == page[s := runs[i].len + n]
    requires if i == 0 then head' == s && next' == next[s := next[runs[i].start]]
             else head' == head && next' == next[s := next[runs[i].start]][runs[i - 1].start := s]
    ensures Linked(next', page', head', Given(runs, s, n))
  {
    hide Ordered, Linked, InRuns;
    var mid := [Run(s, n + runs[i].len)];
    assert runs[i..][1..] == runs[i + 1..];
    assert Given(runs, s, n) == runs[..i] + mid + runs[i + 1..];
    hide Given;
    NotAStart(runs, s);
    LinkedAt(next, page, head, runs, i);
    OthersUntouched(next, page, head, runs, i, i + 1, s, next', page');
    Replaced(next, page, head, runs, i, i + 1, mid, next', page', head');
  }

  /** The pages touch no run. */
  lemma PutBetween(next: map<int, int>, page: map<int, nat>, head: int, runs: seq<Run>, i: nat, s: int, n: nat,
                   next': map<int, int>, page': map<int, nat>, head': int)
    requires Linked(next, page, head, runs) && Ordered(runs) && i <= |runs| && s >= 0 && n > 0 && !InRuns(runs, s)
    requires i < |runs| ==> runs[i].start > s + n
    requires Given(runs, s, n) == runs[..i] + Given(runs[i..], s, n)
    requires page' == page[s := n]
    requires if i == 0 then head' == s && next' == next[s := StartOf(runs, i)]
             else head' == head && next' == next[s := StartOf(runs, i)][runs[i - 1].start := s]
    ensures Linked(next', page', head', Given(runs, s, n))
  {
    hide Ordered, Linked, InRuns;
    var mid := [Run(s, n)];
    assert Given(runs[i..], s, n) == mid + runs[i..];
    assert Given(runs, s, n) == runs[..i] + mid + runs[i..];
    hide Given;
    NotAStart(runs, s);
    OthersUntouched(next, page, head, runs, i, i, s, next', page');
    Replaced(next, page, head, runs, i, i, mid, next', page', head');
  }
}
