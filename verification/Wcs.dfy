/** Worst-case stack analysis over a call graph (tools/WCS.py).

    A function is named by a key: a global by its name, a local by its name and translation unit. */
module Wcs {
  import opened Basics

  datatype Key = Global(name: string) | Local(name: string, tu: string)

  /** What the readers leave in a function's dictionary. */
  datatype Fxn = Fxn(tu: string, calls: seq<string>, hasPtrCall: bool, localStack: nat, manual: bool)

  datatype CallGraph = CallGraph(globals: map<string, Fxn>, locals: map<string, map<string, Fxn>>)

  /** A function once its calls have been resolved. */
  datatype Node = Node(calls: seq<Key>, ptr: bool, stack: nat, missing: set<string>)

  datatype Bound = Bounded(n: nat) | Unbounded

  function Fxns(cg: CallGraph): map<Key, Fxn> {
    (map f | f in cg.globals :: Global(f) := cg.globals[f])
    + (map f, tu | f in cg.locals && tu in cg.locals[f] :: Local(f, tu) := cg.locals[f][tu])
  }

  /** find_fxn: a global hides every local of the same name. */
  function FindFxn(cg: CallGraph, tu: string, name: string): (r: Option<Key>)
    ensures r.Some? ==> r.value in Fxns(cg) && r.value.name == name
    ensures r.None? <==> Global(name) !in Fxns(cg) && Local(name, tu) !in Fxns(cg)
    ensures name in cg.globals ==> r == Some(Global(name))
    ensures name !in cg.globals && name in cg.locals && tu in cg.locals[name] ==> r == Some(Local(name, tu))
  {
    if name in cg.globals then Some(Global(name))
    else if name in cg.locals && tu in cg.locals[name] then Some(Local(name, tu))
    else None
  }

  /** The functions are those of the call graph, each under its own key. */
  lemma FxnsAre(cg: CallGraph, k: Key)
    ensures match k
            case Global(name) => k in Fxns(cg) <==> name in cg.globals
            case Local(name, tu) => k in Fxns(cg) <==> name in cg.locals && tu in cg.locals[name]
    ensures k in Fxns(cg) ==>
      Fxns(cg)[k] == match k
                     case Global(name) => cg.globals[name]
                     case Local(name, tu) => cg.locals[name][tu]
  {
  }

  // ---------------------------------------------------------------- call chains

  ghost predicate Closed(g: map<Key, Node>) {
    forall f, c :: f in g && c in g[f].calls ==> c in g
  }

  /** A chain of calls: each function on it calls the next. */
  ghost predicate Chain(g: map<Key, Node>, p: seq<Key>) {
    && |p| > 0
    && (forall i :: 0 <= i < |p| ==> p[i] in g)
    && (forall i, j :: 0 <= i && i + 1 == j < |p| ==> p[j] in g[p[i]].calls)
  }

  ghost predicate ChainFrom(g: map<Key, Node>, f: Key, p: seq<Key>) {
    Chain(g, p) && p[0] == f
  }

  ghost predicate Distinct(p: seq<Key>) {
    forall i, j :: 0 <= i < j < |p| ==> p[i] != p[j]
  }

  /** No chain of calls from f comes to a call through a pointer or back to a function already on it. */
  ghost predicate Clean(g: map<Key, Node>, f: Key) {
    forall p :: ChainFrom(g, f, p) ==> Distinct(p) && !g[p[|p| - 1]].ptr
  }

  function StackOf(g: map<Key, Node>, p: seq<Key>): nat
    requires forall i :: 0 <= i < |p| ==> p[i] in g
  {
    if p == [] then 0 else g[p[0]].stack + StackOf(g, p[1..])
  }

  /** n is the largest stack any chain of calls from f can use. */
  ghost predicate WorstCase(g: map<Key, Node>, f: Key, n: nat) {
    && (forall p :: ChainFrom(g, f, p) ==> StackOf(g, p) <= n)
    && (exists p :: ChainFrom(g, f, p) && StackOf(g, p) == n)
  }

  /** names are the calls that some function reachable from f makes and that could not be resolved. */
  ghost predicate MissingFrom(g: map<Key, Node>, f: Key, names: set<string>) {
    && (forall p :: ChainFrom(g, f, p) ==> g[p[|p| - 1]].missing <= names)
    && (forall s :: s in names ==> exists p :: ChainFrom(g, f, p) && s in g[p[|p| - 1]].missing)
  }

  lemma ExtendChain(g: map<Key, Node>, f: Key, c: Key, p: seq<Key>)
    requires f in g && c in g[f].calls && ChainFrom(g, c, p)
    ensures ChainFrom(g, f, [f] + p) && StackOf(g, [f] + p) == g[f].stack + StackOf(g, p)
  {
    var q := [f] + p;
    assert q[1..] == p;
    assert forall i :: 1 <= i < |q| ==> q[i] == p[i - 1];
  }

  /** A chain of two or more functions is its first function followed by a chain from one of its calls. */
  lemma ChainTail(g: map<Key, Node>, f: Key, p: seq<Key>)
    requires ChainFrom(g, f, p) && |p| > 1
    ensures p[1] in g[f].calls && ChainFrom(g, p[1], p[1..])
    ensures p[1..][|p| - 2] == p[|p| - 1] && StackOf(g, p) == g[f].stack + StackOf(g, p[1..])
  {
    var q := p[1..];
    assert forall i :: 0 <= i < |q| ==> q[i] == p[i + 1];
  }

  /** A chain can be cut anywhere. */
  lemma ChainPrefix(g: map<Key, Node>, f: Key, p: seq<Key>, k: nat)
    requires ChainFrom(g, f, p) && 0 < k <= |p|
    ensures ChainFrom(g, f, p[..k])
  {
    var q := p[..k];
    assert forall i :: 0 <= i < |q| ==> q[i] == p[i];
  }

  lemma ChainAppend(g: map<Key, Node>, f: Key, p: seq<Key>, c: Key)
    requires ChainFrom(g, f, p) && c in g && c in g[p[|p| - 1]].calls
    ensures ChainFrom(g, f, p + [c])
  {
    var q := p + [c];
    assert forall i :: 0 <= i < |p| ==> q[i] == p[i];
  }

  lemma ChainEnd(g: map<Key, Node>, p: seq<Key>, k: nat)
    requires Chain(g, p) && k < |p|
    ensures Chain(g, p[k..])
  {
    assert forall i :: 0 <= i < |p| - k ==> p[k..][i] == p[k + i];
  }

  lemma Singleton(g: map<Key, Node>, f: Key)
    requires f in g
    ensures ChainFrom(g, f, [f]) && StackOf(g, [f]) == g[f].stack
  {
    assert [f][1..] == [];
  }

  /** A function is clean exactly when it makes no pointer call and everything it calls is clean. */
  lemma CleanStep(g: map<Key, Node>, f: Key)
    requires f in g && Closed(g)
    ensures Clean(g, f) <==> !g[f].ptr && forall c :: c in g[f].calls ==> Clean(g, c)
  {
    if Clean(g, f) {
      Singleton(g, f);
      assert !g[[f][0]].ptr;
      forall c, p | c in g[f].calls && ChainFrom(g, c, p)
        ensures Distinct(p) && !g[p[|p| - 1]].ptr
      {
        ExtendChain(g, f, c, p);
        var q := [f] + p;
        assert q[|q| - 1] == p[|p| - 1];
        assert forall i :: 0 <= i < |p| ==> q[i + 1] == p[i];
      }
    }
    if !g[f].ptr && forall c :: c in g[f].calls ==> Clean(g, c) {
      forall p | ChainFrom(g, f, p)
        ensures Distinct(p) && !g[p[|p| - 1]].ptr
      {
        if |p| > 1 {
          CleanTail(g, f, p);
        }
      }
    }
  }

  lemma CleanTail(g: map<Key, Node>, f: Key, p: seq<Key>)
    requires f in g && ChainFrom(g, f, p) && |p| > 1
    requires p[1] in g[f].calls ==> Clean(g, p[1])
    ensures Distinct(p) && !g[p[|p| - 1]].ptr
  {
    ChainTail(g, f, p);
    var q := p[1..];
    assert forall i :: 1 <= i < |p| ==> p[i] == q[i - 1];
    forall i | 1 <= i < |p|
      ensures p[i] != f
    {
      LoopChain(g, f, p, i);
    }
  }

  /** A chain that comes back to its first function gives a chain with a repetition from the second one. */
  lemma LoopChain(g: map<Key, Node>, f: Key, p: seq<Key>, i: nat)
    requires f in g && ChainFrom(g, f, p) && 1 <= i < |p|
    ensures p[1] in g[f].calls
    ensures p[i] == f ==> ChainFrom(g, p[1], p[1..i + 1] + [p[1]]) && !Distinct(p[1..i + 1] + [p[1]])
  {
    ChainTail(g, f, p);
    if p[i] == f {
      ChainPrefix(g, p[1], p[1..], i);
      assert p[1..][..i] == p[1..i + 1];
      ChainAppend(g, p[1], p[1..i + 1], p[1]);
      var q := p[1..i + 1] + [p[1]];
      assert q[0] == q[i];
    }
  }

  /** The largest stack over the calls made so far, and the missing names they bring. */
  lemma WorstCaseStep(g: map<Key, Node>, f: Key, best: map<Key, nat>, n: nat)
    requires f in g && Closed(g)
    requires forall c :: c in g[f].calls ==> c in best && WorstCase(g, c, best[c]) && best[c] <= n
    requires n == 0 || exists c :: c in g[f].calls && best[c] == n
    ensures WorstCase(g, f, n + g[f].stack)
  {
    forall p | ChainFrom(g, f, p)
      ensures StackOf(g, p) <= n + g[f].stack
    {
      if |p| > 1 {
        ChainTail(g, f, p);
      } else {
        assert p[1..] == [];
      }
    }
    if c :| c in g[f].calls && best[c] == n {
      var p :| ChainFrom(g, c, p) && StackOf(g, p) == n;
      ExtendChain(g, f, c, p);
    } else {
      Singleton(g, f);
    }
  }

  lemma MissingStep(g: map<Key, Node>, f: Key, known: map<Key, set<string>>, names: set<string>)
    requires f in g && Closed(g)
    requires forall c :: c in g[f].calls ==> c in known && MissingFrom(g, c, known[c])
    requires forall s :: s in names <==> s in g[f].missing || exists c :: c in g[f].calls && s in known[c]
    ensures MissingFrom(g, f, names)
  {
    forall p | ChainFrom(g, f, p)
      ensures g[p[|p| - 1]].missing <= names
    {
      if |p| > 1 {
        ChainTail(g, f, p);
      }
    }
    forall s | s in names
      ensures exists p :: ChainFrom(g, f, p) && s in g[p[|p| - 1]].missing
    {
      if s in g[f].missing {
        Singleton(g, f);
        assert s in g[[f][|[f]| - 1]].missing;
      } else {
        var c :| c in g[f].calls && s in known[c];
        var p :| ChainFrom(g, c, p) && s in g[p[|p| - 1]].missing;
        ExtendChain(g, f, c, p);
        var q := [f] + p;
        assert q[|q| - 1] == p[|p| - 1];
      }
    }
  }

  /** Some function reachable from f calls through a pointer. */
  ghost predicate ReachesPointerCall(g: map<Key, Node>, f: Key) {
    exists p :: ChainFrom(g, f, p) && g[p[|p| - 1]].ptr
  }

  /** Some function reachable from f can, by one or more calls, be called again. */
  ghost predicate ReachesCycle(g: map<Key, Node>, f: Key) {
    exists p, q :: ChainFrom(g, f, p) && ChainFrom(g, p[|p| - 1], q) && |q| > 1 && q[|q| - 1] == p[|p| - 1]
  }

  /** What being clean means in terms of reachability. */
  lemma CleanMeans(g: map<Key, Node>, f: Key)
    ensures Clean(g, f) <==> !ReachesPointerCall(g, f) && !ReachesCycle(g, f)
  {
    if ReachesCycle(g, f) {
      var p, q :| ChainFrom(g, f, p) && ChainFrom(g, p[|p| - 1], q) && |q| > 1 && q[|q| - 1] == p[|p| - 1];
      var r := p + q[1..];
      assert forall i :: 0 <= i < |p| ==> r[i] == p[i];
      assert forall i :: |p| <= i < |r| ==> r[i] == q[i - |p| + 1];
      assert ChainFrom(g, f, r) && r[|p| - 1] == r[|r| - 1];
    }
    if !ReachesCycle(g, f) {
      forall p | ChainFrom(g, f, p)
        ensures Distinct(p)
      {
        forall i, j | 0 <= i < j < |p|
          ensures p[i] != p[j]
        {
          ChainPrefix(g, f, p, i + 1);
          var q := p[i..j + 1];
          assert forall k :: 0 <= k < |q| ==> q[k] == p[i + k];
          assert ChainFrom(g, p[i], q) && p[..i + 1][i] == p[i];
        }
      }
    }
  }

  // ---------------------------------------------------------------- the search

  /** Everything recorded so far is right. */
  ghost predicate Right(g: map<Key, Node>, f: Key, b: Bound) {
    f in g && match b
      case Bounded(n) => Clean(g, f) && WorstCase(g, f, n)
      case Unbounded => !Clean(g, f)
  }

  ghost predicate AllRight(g: map<Key, Node>, wcs: map<Key, Bound>) {
    forall f :: f in wcs ==> Right(g, f, wcs[f])
  }

  ghost predicate MissingRight(g: map<Key, Node>, wcs: map<Key, Bound>, missing: map<Key, set<string>>) {
    missing.Keys == g.Keys &&
    forall f :: f in wcs && wcs[f].Bounded? ==> f in g && MissingFrom(g, f, missing[f])
  }

  /** A function not yet looked at still has only its own missing calls. */
  ghost predicate Untouched(g: map<Key, Node>, wcs: map<Key, Bound>, missing: map<Key, set<string>>, parents: seq<Key>) {
    missing.Keys == g.Keys &&
    forall f :: f in g && f !in wcs && f !in parents ==> missing[f] == g[f].missing
  }

  /** A call back to a function still being looked at closes a cycle. */
  lemma BackEdge(g: map<Key, Node>, parents: seq<Key>, f: Key)
    requires Chain(g, parents) && f in parents && f in g && f in g[parents[|parents| - 1]].calls
    ensures !Clean(g, f)
  {
    var k :| 0 <= k < |parents| && parents[k] == f;
    var p := parents[k..];
    ChainEnd(g, parents, k);
    hide Chain;
    ChainAppend(g, f, p, f);
    var q := p + [f];
    assert q[0] == q[|p|];
  }

  lemma PushChain(g: map<Key, Node>, parents: seq<Key>, f: Key)
    requires Distinct(parents) && f in g && f !in parents
    requires parents != [] ==> Chain(g, parents) && f in g[parents[|parents| - 1]].calls
    ensures Distinct(parents + [f]) && Chain(g, parents + [f])
  {
    if parents == [] {
      Singleton(g, f);
      assert parents + [f] == [f];
    } else {
      ChainAppend(g, parents[0], parents, f);
    }
  }

  lemma ParentsFit(g: map<Key, Node>, parents: seq<Key>, f: Key)
    requires Distinct(parents) && (forall i :: 0 <= i < |parents| ==> parents[i] in g) && f in g && f !in parents
    ensures |parents| < |g.Keys|
  {
    var s := SeqSet(parents);
    assert f !in s && s + {f} <= g.Keys;
    SubsetSize(s + {f}, g.Keys);
  }

  lemma {:induction false} SeqSet(p: seq<Key>) returns (s: set<Key>)
    requires Distinct(p)
    ensures |s| == |p| && forall x :: x in s <==> x in p
  {
    if p == [] {
      s := {};
    } else {
      var t := SeqSet(p[1..]);
      s := t + {p[0]};
      assert p == [p[0]] + p[1..];
    }
  }

  /** The missing calls of f and of the first i functions it calls. */
  ghost predicate Gathered(g: map<Key, Node>, f: Key, missing: map<Key, set<string>>, i: int)
    requires f in g && f in missing
  {
    && (forall j :: 0 <= j < i && j < |g[f].calls| ==> g[f].calls[j] in missing && missing[g[f].calls[j]] <= missing[f])
    && g[f].missing <= missing[f]
    && (forall s :: s in missing[f] ==>
          s in g[f].missing || exists j :: 0 <= j < i && j < |g[f].calls| && g[f].calls[j] in missing && s in missing[g[f].calls[j]])
  }

  /** Once every call of f has a bound, so does f. */
  lemma Finish(g: map<Key, Node>, f: Key, wcs: map<Key, Bound>, missing: map<Key, set<string>>, n: nat)
    requires f in g && Closed(g) && AllRight(g, wcs) && MissingRight(g, wcs, missing) && !g[f].ptr
    requires forall c :: c in g[f].calls ==> c in wcs && wcs[c].Bounded? && wcs[c].n <= n
    requires n == 0 || exists c :: c in g[f].calls && wcs[c] == Bounded(n)
    requires Gathered(g, f, missing, |g[f].calls|)
    ensures Right(g, f, Bounded(n + g[f].stack)) && MissingFrom(g, f, missing[f])
  {
    CleanStep(g, f);
    var best := map c | c in wcs && wcs[c].Bounded? :: wcs[c].n;
    WorstCaseStep(g, f, best, n);
    MissingStep(g, f, missing, missing[f]);
  }

  ghost predicate Consistent(g: map<Key, Node>, wcs: map<Key, Bound>, missing: map<Key, set<string>>, parents: seq<Key>) {
    var consistent := Closed(g) && AllRight(g, wcs) && MissingRight(g, wcs, missing) && Untouched(g, wcs, missing, parents);
    consistent
  }

  /** What a call of calc_wcs never changes: figures already known, and the sets of the functions above. */
  ghost predicate Extends(above: seq<Key>, wcs: map<Key, Bound>, missing: map<Key, set<string>>,
                          wcs': map<Key, Bound>, missing': map<Key, set<string>>) {
    var kept :=
      && (forall k :: k in wcs ==> k in wcs' && wcs'[k] == wcs[k])
      && (forall k :: k in missing && (k in wcs || k in above) ==> k in missing' && missing'[k] == missing[k])
      && (forall k :: k in above && k in wcs' && k !in wcs ==> wcs'[k] == Unbounded);
    kept
  }

  /** The first i calls of f have been looked at and all have a bound. */
  ghost predicate Progress(g: map<Key, Node>, f: Key, wcs: map<Key, Bound>, missing: map<Key, set<string>>, i: nat, n: nat) {
    var progress :=
      && f in g && f in missing && i <= |g[f].calls|
      && (forall j :: 0 <= j < i ==> var c := g[f].calls[j]; c in wcs && wcs[c].Bounded? && wcs[c].n <= n)
      && (n == 0 || exists j :: 0 <= j < i && g[f].calls[j] in wcs && wcs[g[f].calls[j]] == Bounded(n))
      && Gathered(g, f, missing, i)
      && (f in wcs ==> wcs[f] == Unbounded);
    progress
  }

  lemma ProgressStart(g: map<Key, Node>, f: Key, wcs: map<Key, Bound>, missing: map<Key, set<string>>, parents: seq<Key>)
    requires Consistent(g, wcs, missing, parents) && f in g && f !in wcs && f !in parents
    ensures Progress(g, f, wcs, missing, 0, 0) && Consistent(g, wcs, missing, parents + [f])
  {
  }

  /** One round of the loop: call i turned out bounded; the figures of the earlier calls have not moved. */
  lemma ProgressStep(g: map<Key, Node>, f: Key, parents: seq<Key>, wcs: map<Key, Bound>, missing: map<Key, set<string>>,
                     wcs': map<Key, Bound>, missing': map<Key, set<string>>, i: nat, n: nat)
    requires Progress(g, f, wcs, missing, i, n) && i < |g[f].calls| && missing.Keys == missing'.Keys == g.Keys
    requires Extends(parents + [f], wcs, missing, wcs', missing')
    requires var c := g[f].calls[i]; c in wcs' && wcs'[c].Bounded? && c in missing'
    ensures var c := g[f].calls[i];
            && f in missing' && c in missing'
            && Progress(g, f, wcs', missing'[f := missing'[f] + missing'[c]], i + 1, if n < wcs'[c].n then wcs'[c].n else n)
  {
    var c := g[f].calls[i];
    assert f in parents + [f];
    assert f in wcs' ==> wcs'[f] == Unbounded;
    forall j | 0 <= j < i
      ensures var d := g[f].calls[j]; d != f && d in wcs' && wcs'[d] == wcs[d] && d in missing' && missing'[d] == missing[d]
    {
    }
    GatheredStep(g, f, missing, missing', i, wcs', c);
    hide Gathered;
    var n' := if n < wcs'[c].n then wcs'[c].n else n;
    if n < wcs'[c].n {
      assert wcs'[g[f].calls[i]] == Bounded(n');
    } else if n' > 0 {
      var j :| 0 <= j < i && g[f].calls[j] in wcs && wcs[g[f].calls[j]] == Bounded(n);
      assert wcs'[g[f].calls[j]] == Bounded(n');
    }
  }

  lemma ConsistentStep(g: map<Key, Node>, f: Key, parents: seq<Key>, wcs: map<Key, Bound>, missing: map<Key, set<string>>, s: set<string>)
    requires Consistent(g, wcs, missing, parents + [f]) && f in g && (f in wcs ==> wcs[f] == Unbounded)
    ensures Consistent(g, wcs, missing[f := s], parents + [f])
  {
    assert f in parents + [f];
  }

  lemma GatheredStep(g: map<Key, Node>, f: Key, missing: map<Key, set<string>>, missing': map<Key, set<string>>, i: nat,
                     wcs: map<Key, Bound>, c: Key)
    requires f in g && f in missing && f in missing' && Gathered(g, f, missing, i) && i < |g[f].calls| && c == g[f].calls[i]
    requires c in missing' && c != f && missing'[f] == missing[f]
    requires forall j :: 0 <= j < i ==>
      g[f].calls[j] != f && g[f].calls[j] in missing' && g[f].calls[j] in missing && missing'[g[f].calls[j]] == missing[g[f].calls[j]]
    ensures Gathered(g, f, missing'[f := missing'[f] + missing'[c]], i + 1)
  {
    var m := missing'[f := missing'[f] + missing'[c]];
    forall s | s in m[f]
      ensures s in g[f].missing || exists j :: 0 <= j < i + 1 && j < |g[f].calls| && g[f].calls[j] in m && s in m[g[f].calls[j]]
    {
      if s in missing[f] && s !in g[f].missing {
        var j :| 0 <= j < i && g[f].calls[j] in missing && s in missing[g[f].calls[j]];
        assert s in m[g[f].calls[j]];
      } else if s !in missing[f] {
        assert s in m[g[f].calls[i]];
      }
    }
  }

  lemma ProgressEnd(g: map<Key, Node>, f: Key, wcs: map<Key, Bound>, missing: map<Key, set<string>>, parents: seq<Key>, n: nat)
    requires f in g && Progress(g, f, wcs, missing, |g[f].calls|, n) && Consistent(g, wcs, missing, parents + [f]) && !g[f].ptr
    ensures Consistent(g, wcs[f := Bounded(n + g[f].stack)], missing, parents) && f !in wcs
  {
    hide Consistent, Right, MissingFrom, Closed, AllRight, MissingRight, Gathered, Progress;
    ProgressFinish(g, f, wcs, missing, parents, n);
    MarkBounded(g, wcs, missing, parents, f, n + g[f].stack);
  }

  lemma ProgressFinish(g: map<Key, Node>, f: Key, wcs: map<Key, Bound>, missing: map<Key, set<string>>, parents: seq<Key>, n: nat)
    requires f in g && Progress(g, f, wcs, missing, |g[f].calls|, n) && Consistent(g, wcs, missing, parents + [f]) && !g[f].ptr
    ensures Right(g, f, Bounded(n + g[f].stack)) && f in missing && MissingFrom(g, f, missing[f]) && (f in wcs ==> wcs[f] == Unbounded)
  {
    hide Right, MissingFrom, Closed, AllRight, MissingRight, Gathered, Untouched;
    Finish(g, f, wcs, missing, n);
  }

  lemma MarkBounded(g: map<Key, Node>, wcs: map<Key, Bound>, missing: map<Key, set<string>>, parents: seq<Key>, f: Key, n: nat)
    requires Consistent(g, wcs, missing, parents + [f]) && f in g && (f in wcs ==> wcs[f] == Unbounded)
    requires Right(g, f, Bounded(n)) && f in missing && MissingFrom(g, f, missing[f])
    ensures Consistent(g, wcs[f := Bounded(n)], missing, parents) && f !in wcs
  {
    assert f in wcs ==> Right(g, f, wcs[f]);
    hide WorstCase, Clean, MissingFrom, Closed;
    assert forall k :: k in parents + [f] <==> k in parents || k == f;
  }

  lemma ProgressFacts(g: map<Key, Node>, f: Key, wcs: map<Key, Bound>, missing: map<Key, set<string>>, i: nat, n: nat)
    requires Progress(g, f, wcs, missing, i, n)
    ensures f in g && (f in wcs ==> wcs[f] == Unbounded)
  {
  }

  /** A function found to reach a pointer call or a cycle, whether or not it has been marked on the way. */
  lemma MarkUnbounded(g: map<Key, Node>, wcs: map<Key, Bound>, missing: map<Key, set<string>>, parents: seq<Key>, f: Key)
    requires Consistent(g, wcs, missing, parents + [f]) || Consistent(g, wcs, missing, parents)
    requires f in g && !Clean(g, f) && (f in wcs ==> wcs[f] == Unbounded)
    ensures Consistent(g, wcs[f := Unbounded], missing, parents)
  {
    assert forall k :: k in parents + [f] <==> k in parents || k == f;
  }

  lemma ConsistentFacts(g: map<Key, Node>, wcs: map<Key, Bound>, missing: map<Key, set<string>>, parents: seq<Key>)
    requires Consistent(g, wcs, missing, parents)
    ensures Closed(g) && missing.Keys == g.Keys
    ensures forall f :: f in wcs ==> f in g && (wcs[f].Unbounded? <==> !Clean(g, f))
  {
    forall f | f in wcs
      ensures f in g && (wcs[f].Unbounded? <==> !Clean(g, f))
    {
      assert Right(g, f, wcs[f]);
    }
  }

  /** A function in progress that has been marked was marked as unbounded. */
  lemma ExtendsFacts(above: seq<Key>, f: Key, wcs: map<Key, Bound>, missing: map<Key, set<string>>,
                     wcs': map<Key, Bound>, missing': map<Key, set<string>>)
    requires Extends(above + [f], wcs, missing, wcs', missing')
    ensures Extends(above, wcs, missing, wcs', missing')
    ensures f !in wcs || wcs[f] == Unbounded ==> f in wcs' ==> wcs'[f] == Unbounded
  {
    assert f in above + [f];
    assert forall k :: k in above ==> k in above + [f];
  }

  lemma ExtendsSelf(above: seq<Key>, wcs: map<Key, Bound>, missing: map<Key, set<string>>)
    ensures Extends(above, wcs, missing, wcs, missing)
  {
  }

  lemma ExtendsTrans(above: seq<Key>, w0: map<Key, Bound>, m0: map<Key, set<string>>, w1: map<Key, Bound>, m1: map<Key, set<string>>,
                     w2: map<Key, Bound>, m2: map<Key, set<string>>)
    requires Extends(above, w0, m0, w1, m1) && Extends(above, w1, m1, w2, m2)
    ensures Extends(above, w0, m0, w2, m2)
  {
  }

  lemma ExtendsMissing(above: seq<Key>, w0: map<Key, Bound>, m0: map<Key, set<string>>, w1: map<Key, Bound>, m1: map<Key, set<string>>,
                       f: Key, s: set<string>)
    requires Extends(above, w0, m0, w1, m1) && f !in w0 && f !in above
    ensures Extends(above, w0, m0, w1, m1[f := s])
  {
  }

  lemma ExtendsSet(above: seq<Key>, w0: map<Key, Bound>, m0: map<Key, set<string>>, w1: map<Key, Bound>, m1: map<Key, set<string>>,
                   f: Key, b: Bound)
    requires Extends(above, w0, m0, w1, m1) && f !in w0 && (f in above ==> b == Unbounded)
    ensures Extends(above, w0, m0, w1[f := b], m1)
  {
  }

  class Analysis {
    const g: map<Key, Node>
    var wcs: map<Key, Bound>
    var missing: map<Key, set<string>>     // unresolved_calls
    var parents: seq<Key>

    /** Before anything has been calculated: only the functions with a manual figure are known. */
    constructor (g: map<Key, Node>, manual: map<Key, Bound>)
      requires Closed(g) && AllRight(g, manual) && forall f :: f in manual ==> f in g && g[f].calls == []
      ensures Valid() && this.g == g && wcs == manual && parents == []
    {
      this.g, wcs, parents := g, manual, [];
      missing := map f | f in g :: g[f].missing;
      new;
      forall f | f in wcs && wcs[f].Bounded?
        ensures f in g && MissingFrom(g, f, missing[f])
      {
        MissingStep(g, f, map[], g[f].missing);
      }
    }

    ghost predicate Valid()
      reads this
    {
      Consistent(g, wcs, missing, parents) && Distinct(parents) && (parents != [] ==> Chain(g, parents))
    }

    /** calc_wcs. */
    method CalcWcs(f: Key)
      requires Valid() && f in g && (parents != [] ==> f in g[parents[|parents| - 1]].calls)
      modifies this
      ensures Valid() && parents == old(parents) && f in wcs
      ensures Extends(parents, old(wcs), old(missing), wcs, missing)
      decreases |g.Keys| - |parents|, 1
    {
      hide AllRight, MissingRight, Untouched, Clean;
      if f in wcs {
        return;
      }
      ConsistentFacts(g, wcs, missing, parents);
      if g[f].ptr || f in parents {
        if g[f].ptr {
          CleanStep(g, f);
        } else {
          BackEdge(g, parents, f);
        }
        MarkUnbounded(g, wcs, missing, parents, f);
        wcs := wcs[f := Unbounded];
        return;
      }
      ParentsFit(g, parents, f);
      Descend(f);
    }

    /** The rest of calc_wcs: look at every call of f in turn. */
    method Descend(f: Key)
      requires Valid() && f in g && (parents != [] ==> f in g[parents[|parents| - 1]].calls)
      requires f !in wcs && !g[f].ptr && f !in parents && |parents| < |g.Keys|
      modifies this
      ensures Valid() && parents == old(parents) && f in wcs
      ensures Extends(parents, old(wcs), old(missing), wcs, missing)
      decreases |g.Keys| - |parents|, 0
    {
      hide AllRight, MissingRight, Untouched, Clean, Chain, Distinct, Extends, Gathered, Closed;
      ghost var above, wcs0, missing0 := parents, wcs, missing;
      ConsistentFacts(g, wcs, missing, parents);
      CleanStep(g, f);
      PushChain(g, parents, f);
      ProgressStart(g, f, wcs, missing, parents);
      ExtendsSelf(above, wcs, missing);
      var callMax: nat := 0;
      var i := 0;
      while i < |g[f].calls|
        invariant i <= |g[f].calls| && parents == above
        invariant Consistent(g, wcs, missing, above + [f]) && Progress(g, f, wcs, missing, i, callMax)
        invariant Extends(above, wcs0, missing0, wcs, missing)
      {
        var c := g[f].calls[i];
        var more := Visit(f, c, i, callMax, wcs0, missing0);
        if !more {
          return;
        }
        callMax := if callMax < wcs[c].n then wcs[c].n else callMax;
        i := i + 1;
      }
      ProgressEnd(g, f, wcs, missing, parents, callMax);
      ExtendsSet(above, wcs0, missing0, wcs, missing, f, Bounded(callMax + g[f].stack));
      wcs := wcs[f := Bounded(callMax + g[f].stack)];
    }

    /** One round: the call of c from f. */
    method Visit(f: Key, c: Key, ghost i: nat, ghost n: nat, ghost wcs0: map<Key, Bound>, ghost missing0: map<Key, set<string>>)
      returns (more: bool)
      requires f in g && Consistent(g, wcs, missing, parents + [f]) && Progress(g, f, wcs, missing, i, n)
      requires Distinct(parents) && (parents != [] ==> Chain(g, parents)) && Distinct(parents + [f]) && Chain(g, parents + [f])
      requires i < |g[f].calls| && c == g[f].calls[i] && f !in wcs0 && f !in parents && |parents| < |g.Keys|
      requires Extends(parents, wcs0, missing0, wcs, missing) && (!Clean(g, c) ==> !Clean(g, f))
      modifies this
      ensures parents == old(parents) && c in wcs && Extends(parents, wcs0, missing0, wcs, missing)
      ensures !more ==> f in wcs && Consistent(g, wcs, missing, parents)
      ensures more ==> wcs[c].Bounded? && Consistent(g, wcs, missing, parents + [f])
      ensures more ==> Progress(g, f, wcs, missing, i + 1, if n < wcs[c].n then wcs[c].n else n)
      decreases |g.Keys| - |parents| - 1, 2
    {
      hide AllRight, MissingRight, Untouched, Clean, Chain, Distinct, Extends, Gathered, Progress;
      ghost var above, wcs1, missing1 := parents, wcs, missing;
      ConsistentFacts(g, wcs, missing, parents + [f]);
      ProgressFacts(g, f, wcs, missing, i, n);
      parents := parents + [f];
      CalcWcs(c);
      ExtendsFacts(above, f, wcs1, missing1, wcs, missing);
      parents := parents[..|parents| - 1];
      ConsistentFacts(g, wcs, missing, above + [f]);
      ExtendsTrans(above, wcs0, missing0, wcs1, missing1, wcs, missing);
      if wcs[c].Unbounded? {
        MarkUnbounded(g, wcs, missing, above, f);
        ExtendsSet(above, wcs0, missing0, wcs, missing, f, Unbounded);
        wcs := wcs[f := Unbounded];
        return false;
      }
      ProgressStep(g, f, above, wcs1, missing1, wcs, missing, i, n);
      ConsistentStep(g, f, above, wcs, missing, missing[f] + missing[c]);
      ExtendsMissing(above, wcs0, missing0, wcs, missing, f, missing[f] + missing[c]);
      missing := missing[f := missing[f] + missing[c]];
      return true;
    }
  }

  // ---------------------------------------------------------------- from the call graph

  /** n is f with every call looked up from f's own translation unit. */
  ghost predicate ResolvedTo(cg: CallGraph, f: Fxn, n: Node) {
    && n.ptr == f.hasPtrCall && n.stack == f.localStack
    && (forall c :: c in n.calls <==> exists name :: name in f.calls && FindFxn(cg, f.tu, name) == Some(c))
    && (forall name :: name in n.missing <==> name in f.calls && FindFxn(cg, f.tu, name) == None)
  }

  /** One of the names is that of c, as the unit sees it. */
  ghost predicate Named(cg: CallGraph, tu: string, names: seq<string>, c: Key) {
    exists name :: name in names && FindFxn(cg, tu, name) == Some(c)
  }

  lemma NamedMore(cg: CallGraph, tu: string, names: seq<string>, name: string, c: Key)
    ensures Named(cg, tu, names + [name], c) <==> Named(cg, tu, names, c) || FindFxn(cg, tu, name) == Some(c)
  {
    hide FindFxn;
    assert forall x :: x in names + [name] <==> x in names || x == name;
  }

  /** The inner function of resolve_all_calls. */
  method ResolveCalls(cg: CallGraph, f: Fxn) returns (n: Node)
    ensures ResolvedTo(cg, f, n)
  {
    hide FindFxn, Named;
    var calls, missing := [], {};
    NoNames(cg, f.tu);
    for i := 0 to |f.calls|
      invariant forall c :: c in calls <==> Named(cg, f.tu, f.calls[..i], c)
      invariant forall name :: name in missing <==> name in f.calls[..i] && FindFxn(cg, f.tu, name) == None
    {
      var name := f.calls[i];
      assert f.calls[..i + 1] == f.calls[..i] + [name];
      forall c
        ensures Named(cg, f.tu, f.calls[..i + 1], c) <==> Named(cg, f.tu, f.calls[..i], c) || FindFxn(cg, f.tu, name) == Some(c)
      {
        NamedMore(cg, f.tu, f.calls[..i], name, c);
      }
      match FindFxn(cg, f.tu, name) {
        case Some(c) =>
          calls := calls + [c];
        case None =>
          missing := missing + {name};
      }
    }
    assert f.calls[..|f.calls|] == f.calls;
    n := Node(calls, f.hasPtrCall, f.localStack, missing);
    ResolvedBy(cg, f, n);
  }

  lemma NoNames(cg: CallGraph, tu: string)
    ensures forall c :: !Named(cg, tu, [], c)
  {
  }

  lemma ResolvedBy(cg: CallGraph, f: Fxn, n: Node)
    requires n.ptr == f.hasPtrCall && n.stack == f.localStack && forall c :: c in n.calls <==> Named(cg, f.tu, f.calls, c)
    requires forall name :: name in n.missing <==> name in f.calls && FindFxn(cg, f.tu, name) == None
    ensures ResolvedTo(cg, f, n)
  {
    hide FindFxn;
  }

  ghost predicate ResolvedGraph(cg: CallGraph, g: map<Key, Node>) {
    g.Keys == Fxns(cg).Keys && forall k :: k in g ==> ResolvedTo(cg, Fxns(cg)[k], g[k])
  }

  /** resolve_all_calls. */
  method ResolveAllCalls(cg: CallGraph) returns (g: map<Key, Node>)
    ensures ResolvedGraph(cg, g) && Closed(g)
  {
    var fxns := Fxns(cg);
    var todo := fxns.Keys;
    g := map[];
    while todo != {}
      invariant todo <= fxns.Keys && g.Keys == fxns.Keys - todo
      invariant forall k :: k in g ==> ResolvedTo(cg, fxns[k], g[k])
    {
      var k :| k in todo;
      var n := ResolveCalls(cg, fxns[k]);
      g := g[k := n];
      todo := todo - {k};
    }
  }

  /** read_manual: a function with a figure given by hand calls nothing. */
  ghost predicate ManualReady(cg: CallGraph) {
    forall k :: k in Fxns(cg) && Fxns(cg)[k].manual ==> Fxns(cg)[k].calls == [] && !Fxns(cg)[k].hasPtrCall
  }

  /** A function that calls nothing uses its own stack and no more. */
  lemma LeafRight(g: map<Key, Node>, f: Key)
    requires Closed(g) && f in g && g[f].calls == [] && !g[f].ptr
    ensures Right(g, f, Bounded(g[f].stack))
  {
    CleanStep(g, f);
    WorstCaseStep(g, f, map[], 0);
  }

  lemma NoCalls(cg: CallGraph, f: Fxn, n: Node)
    requires ResolvedTo(cg, f, n) && f.calls == []
    ensures n.calls == []
  {
    HasElement(n.calls);
  }

  lemma HasElement(s: seq<Key>)
    ensures s == [] || exists x :: x in s
  {
    if s != [] {
      assert s[0] in s;
    }
  }

  function ManualFigures(cg: CallGraph): map<Key, Bound> {
    map k | k in Fxns(cg) && Fxns(cg)[k].manual :: Bounded(Fxns(cg)[k].localStack)
  }

  lemma ManualRight(cg: CallGraph, g: map<Key, Node>)
    requires ManualReady(cg) && ResolvedGraph(cg, g) && Closed(g)
    ensures AllRight(g, ManualFigures(cg)) && forall f :: f in ManualFigures(cg) ==> f in g && g[f].calls == []
  {
    var fxns := Fxns(cg);
    hide Fxns, FindFxn, Right;
    forall k | k in ManualFigures(cg)
      ensures k in g && Right(g, k, ManualFigures(cg)[k]) && g[k].calls == []
    {
      NoCalls(cg, fxns[k], g[k]);
      LeafRight(g, k);
    }
  }

  /** What the analysis promises of every function's figure. */
  ghost predicate Answers(g: map<Key, Node>, wcs: map<Key, Bound>, missing: map<Key, set<string>>) {
    wcs.Keys == missing.Keys == g.Keys &&
    forall f :: f in wcs ==>
      && (wcs[f].Bounded? <==> !ReachesPointerCall(g, f) && !ReachesCycle(g, f))
      && (wcs[f].Bounded? ==> WorstCase(g, f, wcs[f].n) && MissingFrom(g, f, missing[f]))
  }

  lemma ConsistentAnswers(g: map<Key, Node>, wcs: map<Key, Bound>, missing: map<Key, set<string>>)
    requires Consistent(g, wcs, missing, []) && wcs.Keys == g.Keys
    ensures Answers(g, wcs, missing)
  {
    hide ReachesPointerCall, ReachesCycle, WorstCase, MissingFrom, Clean;
    forall f | f in wcs
      ensures wcs[f].Bounded? <==> !ReachesPointerCall(g, f) && !ReachesCycle(g, f)
      ensures wcs[f].Bounded? ==> WorstCase(g, f, wcs[f].n)
    {
      assert Right(g, f, wcs[f]);
      CleanMeans(g, f);
    }
  }

  /** resolve_all_calls followed by calc_all_wcs: every function gets a number exactly when it reaches no pointer
      call and no cycle; the number is its worst case, and its unresolved calls are all those it can reach. */
  method CalcAllWcs(cg: CallGraph) returns (g: map<Key, Node>, wcs: map<Key, Bound>, missing: map<Key, set<string>>)
    requires ManualReady(cg)
    ensures ResolvedGraph(cg, g) && Answers(g, wcs, missing)
  {
    hide ManualReady, ResolvedGraph, Answers, AllRight, Closed, MissingRight, Untouched;
    g := ResolveAllCalls(cg);
    ManualRight(cg, g);
    var a := new Analysis(g, ManualFigures(cg));
    var todo := g.Keys;
    while todo != {}
      invariant a.Valid() && a.g == g && a.parents == [] && todo <= g.Keys
      invariant forall k :: k in g.Keys - todo ==> k in a.wcs
    {
      var k :| k in todo;
      a.CalcWcs(k);
      todo := todo - {k};
    }
    wcs, missing := a.wcs, a.missing;
    ConsistentFacts(g, wcs, missing, []);
    ConsistentAnswers(g, wcs, missing);
  }
}
