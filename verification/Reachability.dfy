/** Whole-program reachability of defined functions. */
module Reachability {
  import opened Basics
  import opened CallGraph

  /** An export: its kind, name, and global function index. */
  datatype Export = Export(isFunc: bool, name: string, index: nat)

  /** What the module says of its entry points; indices below `numImports` are imports. */
  datatype EntryPoints = EntryPoints(numImports: nat, start: Option<nat>, elements: seq<seq<nat>>, exports: seq<Export>)
  {
    /** `fi` is the start function, a table entry, or a kept function export. */
    ghost predicate Names(entryExports: Option<set<string>>, fi: nat) {
      || start == Some(fi)
      || (exists s :: 0 <= s < |elements| && fi in elements[s])
      || (exists e :: 0 <= e < |exports| && Kept(exports[e], entryExports) && exports[e].index == fi)
    }

    predicate Kept(e: Export, entryExports: Option<set<string>>) {
      e.isFunc && (entryExports.None? || e.name in entryExports.value)
    }
  }

  /** Defined function `d` is called, possibly through others, from an entry point. */
  ghost predicate Live(g: Graph, ep: EntryPoints, entryExports: Option<set<string>>, d: nat) {
    exists r: nat :: ep.Names(entryExports, ep.numImports + r) && Reach(g, r, d)
  }

  class Marker {
    const g: Graph
    var reachable: set<nat>
    var work: seq<nat>

    constructor (g: Graph)
      ensures this.g == g && reachable == {} && work == []
    {
      this.g := g;
      reachable := {};
      work := [];
    }

    method AddLocal(d: nat)
      modifies this
      ensures reachable == old(reachable) + (if d < |g| then {d} else {})
      ensures work == if d < |g| && d !in old(reachable) then old(work) + [d] else old(work)
    {
      if d >= |g| || d in reachable {
        return;
      }
      reachable := reachable + {d};
      work := work + [d];
    }

    /** The worklist holds exactly the marked functions. */
    ghost predicate Sync()
      reads this
    {
      forall d :: d in reachable <==> d in work
    }

    method AddGlobal(fi: nat, numImports: nat)
      requires Sync()
      modifies this
      ensures Sync()
      ensures forall d: nat :: d in reachable <==> d in old(reachable) || (d < |g| && d + numImports == fi)
    {
      if fi < numImports {
        return;
      }
      AddLocal(fi - numImports);
    }

    /** Marks the callees of `d`. */
    method MarkCallees(d: nat)
      requires d < |g| && forall e :: e in work ==> e in reachable
      modifies this
      ensures old(reachable) <= reachable && old(work) <= work
      ensures reachable == old(reachable) ==> work == old(work)
      ensures forall e :: e in work ==> e in reachable
      ensures forall e :: e in reachable - old(reachable) ==> e in work && e < |g| && e in g[d]
      ensures forall j :: 0 <= j < |g[d]| && g[d][j] < |g| ==> g[d][j] in reachable
    {
      for i := 0 to |g[d]|
        invariant old(reachable) <= reachable && old(work) <= work
        invariant reachable == old(reachable) ==> work == old(work)
        invariant forall e :: e in work ==> e in reachable
        invariant forall e :: e in reachable - old(reachable) ==> e in work && e < |g| && e in g[d]
        invariant forall j :: 0 <= j < i && g[d][j] < |g| ==> g[d][j] in reachable
      {
        ghost var w := work;
        AddLocal(g[d][i]);
        assert forall e :: e in w ==> e in work;
      }
    }

    /** Marks everything called from marked functions. */
    method Propagate()
      requires Sync() && InRange(g, reachable)
      modifies this
      ensures forall d: nat :: d in reachable <==> From(g, old(reachable), d)
    {
      ghost var roots := reachable;
      StartMarking(g, roots, work);
      while |work| > 0
        invariant Marking(g, roots, reachable, work)
        decreases |Upto(|g|) - reachable|, |work|
      {
        var d := work[|work| - 1];
        ghost var w0, r0 := work, reachable;
        work := work[..|work| - 1];
        ghost var w1 := work;
        Pop(w0, d, w1, r0);
        MarkCallees(d);
        MarkStep(g, roots, r0, w1, d, reachable, work);
      }
      AllMarked(g, roots, reachable);
    }
  }

  lemma Pop(w0: seq<nat>, d: nat, w1: seq<nat>, s: set<nat>)
    requires w0 != [] && d == w0[|w0| - 1] && w1 == w0[..|w0| - 1] && forall e :: e in w0 ==> e in s
    ensures w0 == w1 + [d] && d in s && forall e :: e in w1 ==> e in s
  {
    assert d in w0;
    assert forall e :: e in w1 ==> e in w0;
  }

  /** Marked functions are called from the roots, and only functions on the worklist
      may have unmarked callees. */
  ghost predicate Marking(g: Graph, roots: set<nat>, s: set<nat>, work: seq<nat>) {
    && (forall d :: d in work ==> d in s)
    && roots <= s && InRange(g, s) && AllFrom(g, roots, s) && Frontier(g, s, work)
  }

  lemma StartMarking(g: Graph, roots: set<nat>, work: seq<nat>)
    requires InRange(g, roots) && forall d :: d in roots <==> d in work
    ensures Marking(g, roots, roots, work)
  {
    forall d | d in roots
      ensures From(g, roots, d)
    {
      ReachRefl(g, d);
    }
  }

  lemma MarkStep(g: Graph, roots: set<nat>, s0: set<nat>, w0: seq<nat>, d: nat, s1: set<nat>, w1: seq<nat>)
    requires Marking(g, roots, s0, w0 + [d]) && d in s0 && s0 <= s1 && w0 <= w1 && CalleesIn(g, s1, d)
    requires forall e :: e in w1 ==> e in s1
    requires forall e :: e in s1 - s0 ==> e in w1 && e < |g| && e in g[d]
    ensures Marking(g, roots, s1, w1)
    ensures s1 != s0 ==> |Upto(|g|) - s1| < |Upto(|g|) - s0|
  {
    FrontierStep(g, s0, w0, d, s1, w1);
    AllFromStep(g, roots, s0, d, s1);
    if s1 != s0 {
      MoreMarked(|g|, s0, s1);
    }
  }

  ghost predicate From(g: Graph, roots: set<nat>, d: nat) {
    exists r :: r in roots && Reach(g, r, d)
  }

  ghost predicate InRange(g: Graph, s: set<nat>) {
    forall d :: d in s ==> d < |g|
  }

  ghost predicate AllFrom(g: Graph, roots: set<nat>, s: set<nat>) {
    forall d {:trigger From(g, roots, d)} :: d in s ==> From(g, roots, d)
  }

  ghost predicate CalleesIn(g: Graph, s: set<nat>, d: nat) {
    d < |g| ==> forall j :: 0 <= j < |g[d]| && g[d][j] < |g| ==> g[d][j] in s
  }

  ghost predicate Frontier(g: Graph, s: set<nat>, work: seq<nat>) {
    forall d {:trigger CalleesIn(g, s, d)} :: d in s && d !in work ==> CalleesIn(g, s, d)
  }

  lemma FrontierStep(g: Graph, s0: set<nat>, w0: seq<nat>, d: nat, s1: set<nat>, w1: seq<nat>)
    requires Frontier(g, s0, w0 + [d]) && s0 <= s1 && w0 <= w1 && CalleesIn(g, s1, d)
    requires forall e :: e in s1 - s0 ==> e in w1
    ensures Frontier(g, s1, w1)
  {
    forall e | e in s1 && e !in w1
      ensures CalleesIn(g, s1, e)
    {
      if e != d {
        assert forall x :: x in w0 ==> x in w1;
        assert CalleesIn(g, s0, e);
      }
    }
  }

  lemma AllFromStep(g: Graph, roots: set<nat>, s0: set<nat>, d: nat, s1: set<nat>)
    requires AllFrom(g, roots, s0) && InRange(g, s0) && d in s0
    requires forall e :: e in s1 - s0 ==> d < |g| && e < |g| && e in g[d]
    ensures AllFrom(g, roots, s1) && InRange(g, s1)
  {
    forall e | e in s1
      ensures e < |g| && From(g, roots, e)
    {
      assert From(g, roots, d);
      if e !in s0 {
        assert e in s1 - s0;
        var r :| r in roots && Reach(g, r, d);
        ReachEdge(g, d, e);
        ReachTrans(g, r, d, e);
      } else {
        assert From(g, roots, e);
      }
    }
  }

  lemma MoreMarked(n: nat, s0: set<nat>, s1: set<nat>)
    requires s0 < s1 && forall d :: d in s1 ==> d < n
    ensures |Upto(n) - s1| < |Upto(n) - s0|
  {
    var d :| d in s1 && d !in s0;
    assert d in Upto(n) - s0 && Upto(n) - s1 <= Upto(n) - s0 - {d};
    NoLarger(Upto(n) - s1, Upto(n) - s0 - {d});
  }

  lemma AllMarked(g: Graph, roots: set<nat>, s: set<nat>)
    requires Frontier(g, s, []) && roots <= s && AllFrom(g, roots, s)
    ensures forall d: nat :: d in s <==> From(g, roots, d)
  {
    forall d: nat
      ensures d in s <==> From(g, roots, d)
    {
      if From(g, roots, d) {
        var r :| r in roots && Reach(g, r, d);
        ClosedReachInRange(g, s, r, d);
      }
    }
  }

  lemma ClosedReachInRange(g: Graph, s: set<nat>, a: nat, b: nat)
    requires Frontier(g, s, [])
    requires a in s && Reach(g, a, b)
    ensures b in s
  {
    var p :| IsPath(g, p) && p[0] == a && p[|p| - 1] == b;
    PathStaysInRange(g, s, p, |p| - 1);
  }

  lemma {:induction false} PathStaysInRange(g: Graph, s: set<nat>, p: seq<nat>, k: nat)
    requires Frontier(g, s, [])
    requires IsPath(g, p) && p[0] in s && k < |p|
    ensures p[k] in s
  {
    if k > 0 {
      PathStaysInRange(g, s, p, k - 1);
      assert CalleesIn(g, s, p[k - 1]);
      assert p[k] in g[p[k - 1]];
    }
  }

  /** Exactly the functions reachable from an entry point are kept. */
  method ComputeReachableFuncs(ep: EntryPoints, entryExports: Option<set<string>>, callees: Graph)
    returns (reachable: set<nat>)
    ensures forall d: nat :: d in reachable <==> Live(callees, ep, entryExports, d)
  {
    var mk := new Marker(callees);
    if ep.start.Some? {
      mk.AddGlobal(ep.start.value, ep.numImports);
    }
    for s := 0 to |ep.elements|
      invariant fresh(mk) && mk.g == callees && mk.Sync()
      invariant forall d: nat :: d in mk.reachable <==>
                  d < |callees| && Named(ep, entryExports, s, 0, 0, d + ep.numImports)
    {
      for i := 0 to |ep.elements[s]|
        invariant fresh(mk) && mk.g == callees && mk.Sync()
        invariant forall d: nat :: d in mk.reachable <==>
                    d < |callees| && Named(ep, entryExports, s, i, 0, d + ep.numImports)
      {
        mk.AddGlobal(ep.elements[s][i], ep.numImports);
      }
    }
    for e := 0 to |ep.exports|
      invariant fresh(mk) && mk.g == callees && mk.Sync()
      invariant forall d: nat :: d in mk.reachable <==>
                  d < |callees| && Named(ep, entryExports, |ep.elements|, 0, e, d + ep.numImports)
    {
      if ep.Kept(ep.exports[e], entryExports) {
        mk.AddGlobal(ep.exports[e].index, ep.numImports);
      }
    }
    ghost var roots := mk.reachable;
    mk.Propagate();
    reachable := mk.reachable;
    LiveIsClosure(ep, entryExports, callees, roots, reachable);
  }

  /** What follows from the entry points is live, and nothing else is. */
  lemma LiveIsClosure(ep: EntryPoints, entryExports: Option<set<string>>, callees: Graph, roots: set<nat>,
                      reachable: set<nat>)
    requires forall d: nat :: d in roots <==>
               d < |callees| && Named(ep, entryExports, |ep.elements|, 0, |ep.exports|, d + ep.numImports)
    requires forall d: nat :: d in reachable <==> From(callees, roots, d)
    ensures forall d: nat :: d in reachable <==> Live(callees, ep, entryExports, d)
  {
    forall d: nat
      ensures d in reachable <==> Live(callees, ep, entryExports, d)
    {
      if d in reachable {
        var r :| r in roots && Reach(callees, r, d);
        assert ep.Names(entryExports, ep.numImports + r);
      }
      if Live(callees, ep, entryExports, d) {
        var r: nat :| ep.Names(entryExports, ep.numImports + r) && Reach(callees, r, d);
        assert r < |callees|;
        assert Named(ep, entryExports, |ep.elements|, 0, |ep.exports|, r + ep.numImports);
        assert r in roots;
        assert From(callees, roots, d);
      }
    }
  }

  /** Named by the start function, by the first `s` segments and `i` entries of the
      next, or by the first `n` exports. */
  ghost predicate Named(ep: EntryPoints, entryExports: Option<set<string>>, s: nat, i: nat, n: nat, fi: nat)
    requires s <= |ep.elements| && n <= |ep.exports|
    requires i == 0 || (s < |ep.elements| && i <= |ep.elements[s]|)
  {
    || ep.start == Some(fi)
    || (exists t :: 0 <= t < s && fi in ep.elements[t])
    || (i > 0 && fi in ep.elements[s][..i])
    || (exists e :: 0 <= e < n && ep.Kept(ep.exports[e], entryExports) && ep.exports[e].index == fi)
  }

  /** Liveness is uniform on mutually reachable functions, so one member of a
      component decides for all. */
  lemma LiveUniform(g: Graph, ep: EntryPoints, entryExports: Option<set<string>>, x: nat, y: nat)
    requires Mutual(g, x, y)
    ensures Live(g, ep, entryExports, x) <==> Live(g, ep, entryExports, y)
  {
    if Live(g, ep, entryExports, x) {
      var r: nat :| ep.Names(entryExports, ep.numImports + r) && Reach(g, r, x);
      ReachTrans(g, r, x, y);
    }
    if Live(g, ep, entryExports, y) {
      var r: nat :| ep.Names(entryExports, ep.numImports + r) && Reach(g, r, y);
      ReachTrans(g, r, y, x);
    }
  }
}
