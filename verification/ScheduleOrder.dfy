/** What a schedule must keep: dependences before uses, memory operations in order. */
module ScheduleOrder {
  import opened Basics
  import opened FusedTree
  import opened Reassociate
  import opened ChainRewrite

  predicate Scalar(nodes: seq<Node>, i: nat) {
    i < |nodes| && IsScalar(nodes[i].op)
  }

  /** Every scalar node is an argument of some node ... */
  ghost predicate ScalarsUsed(nodes: seq<Node>) {
    forall i: nat :: Scalar(nodes, i) ==> Uses(nodes, i) >= 1
  }

  /** ... and takes no vector argument, as the scalar vocabulary has no lane extraction. */
  ghost predicate ScalarsFeedForward(nodes: seq<Node>) {
    forall i, c ::
      0 <= i < |nodes| && IsScalar(nodes[i].op) && 0 <= c < |nodes[i].args| && nodes[i].args[c].ArgNode? ==>
      Scalar(nodes, nodes[i].args[c].index)
  }

  // ----- lists of nodes -----

  /** The arguments of node `v` other than scalar ones, or all of them, are in `s`. */
  ghost predicate Fed(nodes: seq<Node>, s: seq<nat>, v: nat, scalarsToo: bool) {
    v < |nodes| && forall c :: 0 <= c < |nodes[v].args| && nodes[v].args[c].ArgNode?
                               && (scalarsToo || !Scalar(nodes, nodes[v].args[c].index)) ==>
                     nodes[v].args[c].index in s
  }

  /** Each listed node comes once, after what feeds it. */
  ghost predicate Ordered(nodes: seq<Node>, s: seq<nat>, scalarsToo: bool) {
    NoDup(s)
      && forall k {:trigger Fed(nodes, s[..k], s[k], scalarsToo)} ::
           0 <= k < |s| ==> Fed(nodes, s[..k], s[k], scalarsToo)
  }

  lemma OrderedRange(nodes: seq<Node>, s: seq<nat>, scalarsToo: bool)
    requires Ordered(nodes, s, scalarsToo)
    ensures forall k :: 0 <= k < |s| ==> s[k] < |nodes|
  {
    forall k | 0 <= k < |s|
      ensures s[k] < |nodes|
    {
      assert Fed(nodes, s[..k], s[k], scalarsToo);
    }
  }

  lemma OrderedSnoc(nodes: seq<Node>, s: seq<nat>, v: nat, scalarsToo: bool)
    requires Ordered(nodes, s, scalarsToo) && v !in s && Fed(nodes, s, v, scalarsToo)
    ensures Ordered(nodes, s + [v], scalarsToo)
  {
    var t := s + [v];
    forall k | 0 <= k < |t|
      ensures Fed(nodes, t[..k], t[k], scalarsToo)
    {
      if k < |s| {
        assert t[..k] == s[..k];
        assert Fed(nodes, s[..k], s[k], scalarsToo);
      } else {
        assert t[..k] == s;
      }
    }
  }

  /** Memory operations are listed in their original order. */
  ghost predicate MemAscends(nodes: seq<Node>, s: seq<nat>) {
    forall j, k ::
      0 <= j < k < |s| && s[j] < |nodes| && s[k] < |nodes| && IsMemOp(nodes[s[j]].op) && IsMemOp(nodes[s[k]].op) ==>
      s[j] < s[k]
  }

  // ----- unmet dependences -----

  /** The nodes named by a list of arguments. */
  function Deps(args: seq<Arg>): (r: seq<nat>)
    ensures forall d :: d in r <==> ArgNode(d) in args
  {
    if args == [] then []
    else
      var a := args[|args| - 1];
      Deps(args[..|args| - 1]) + if a.ArgNode? then [a.index] else []
  }

  ghost predicate AllDeps(nodes: seq<Node>, deps: seq<seq<nat>>) {
    |deps| == |nodes| && forall i :: 0 <= i < |nodes| ==> deps[i] == Deps(nodes[i].args)
  }

  /** How many entries are not done. */
  ghost function Pending(ds: seq<nat>, done: seq<bool>): (r: nat)
    ensures r <= |ds|
  {
    if ds == [] then 0
    else Pending(ds[..|ds| - 1], done) + One(ds[|ds| - 1] < |done| && !done[ds[|ds| - 1]])
  }

  lemma {:induction false} PendingZero(ds: seq<nat>, done: seq<bool>)
    ensures Pending(ds, done) == 0 <==> forall d :: d in ds && d < |done| ==> done[d]
  {
    if ds != [] {
      var n := |ds| - 1;
      PendingZero(ds[..n], done);
      assert ds == ds[..n] + [ds[n]];
    }
  }

  lemma {:induction false} PendingAll(ds: seq<nat>, done: seq<bool>)
    requires forall d :: d in ds ==> d < |done| && !done[d]
    ensures Pending(ds, done) == |ds|
  {
    if ds != [] {
      var n := |ds| - 1;
      assert forall d :: d in ds[..n] ==> d in ds;
      assert ds[n] in ds;
      PendingAll(ds[..n], done);
    }
  }

  lemma {:induction false} PendingRetire(ds: seq<nat>, done: seq<bool>, i: nat)
    requires i < |done| && !done[i]
    ensures Pending(ds, done[i := true]) == Pending(ds, done) - Times(ds, i)
  {
    if ds != [] {
      var n := |ds| - 1;
      PendingRetire(ds[..n], done, i);
      assert ds == ds[..n] + [ds[n]];
    }
  }

  // ----- how many nodes are left -----

  ghost function Left(done: seq<bool>): nat {
    if done == [] then 0 else Left(done[..|done| - 1]) + One(!done[|done| - 1])
  }

  lemma {:induction false} LeftRetire(done: seq<bool>, i: nat)
    requires i < |done| && !done[i]
    ensures Left(done[i := true]) == Left(done) - 1
  {
    var n := |done| - 1;
    if i == n {
      assert done[i := true][..n] == done[..n];
    } else {
      assert done[i := true][..n] == done[..n][i := true];
      LeftRetire(done[..n], i);
    }
  }

  lemma {:induction false} LeftNone(done: seq<bool>)
    requires Left(done) == 0
    ensures forall i :: 0 <= i < |done| ==> done[i]
  {
    if done != [] {
      LeftNone(done[..|done| - 1]);
    }
  }

  lemma {:induction false} LeftAll(done: seq<bool>)
    requires forall i :: 0 <= i < |done| ==> !done[i]
    ensures Left(done) == |done|
  {
    if done != [] {
      LeftAll(done[..|done| - 1]);
    }
  }

  /** The first node not done. */
  lemma {:induction false} FirstLeft(done: seq<bool>) returns (i: nat)
    requires Left(done) > 0
    ensures i < |done| && !done[i] && forall j :: 0 <= j < i ==> done[j]
  {
    var n := |done| - 1;
    if Left(done[..n]) > 0 {
      i := FirstLeft(done[..n]);
      assert done[..n][i] == done[i];
      forall j | 0 <= j < i
        ensures done[j]
      {
        assert done[..n][j];
      }
    } else {
      LeftNone(done[..n]);
      i := n;
      forall j | 0 <= j < i
        ensures done[j]
      {
        assert done[..n][j];
      }
    }
  }

  // ----- the memory queue -----

  /** The memory operations in order. */
  ghost predicate IsLoadOrder(nodes: seq<Node>, loadOrder: seq<nat>) {
    && Ascending(loadOrder)
    && (forall q :: 0 <= q < |loadOrder| ==> loadOrder[q] < |nodes| && IsMemOp(nodes[loadOrder[q]].op))
    && (forall i: nat :: i < |nodes| && IsMemOp(nodes[i].op) ==> i in loadOrder)
  }

  /** Those done are the first `nextLoad` ones. */
  ghost predicate QueueAt(loadOrder: seq<nat>, nextLoad: nat, done: seq<bool>) {
    nextLoad <= |loadOrder|
      && forall q :: 0 <= q < |loadOrder| && loadOrder[q] < |done| ==> (done[loadOrder[q]] <==> q < nextLoad)
  }

  predicate Ready(nodes: seq<Node>, done: seq<bool>, emittedDeps: seq<int>, loadOrder: seq<nat>, nextLoad: nat, i: nat)
    requires |done| == |emittedDeps| == |nodes| && i < |nodes|
  {
    && !done[i]
    && emittedDeps[i] == 0
    && (IsMemOp(nodes[i].op) ==> nextLoad < |loadOrder| && loadOrder[nextLoad] == i)
  }

  /** Counters match what is done. */
  ghost predicate Tracks(deps: seq<seq<nat>>, done: seq<bool>, emittedDeps: seq<int>) {
    |deps| == |done| == |emittedDeps| && forall j :: 0 <= j < |deps| ==> emittedDeps[j] == Pending(deps[j], done)
  }

  /** The vector nodes done are those scheduled. */
  ghost predicate DoneIs(nodes: seq<Node>, done: seq<bool>, s: seq<nat>) {
    && |done| == |nodes|
    && (forall i: nat :: i < |nodes| ==> (done[i] <==> Scalar(nodes, i) || i in s))
    && (forall i :: i in s ==> !Scalar(nodes, i))
  }

  /** The greedy walk so far. */
  ghost predicate Greedy(nodes: seq<Node>, deps: seq<seq<nat>>, s: seq<nat>, done: seq<bool>, emittedDeps: seq<int>,
                         loadOrder: seq<nat>, nextLoad: nat) {
    && AllDeps(nodes, deps) && IsLoadOrder(nodes, loadOrder)
    && DoneIs(nodes, done, s) && Tracks(deps, done, emittedDeps) && QueueAt(loadOrder, nextLoad, done)
    && Ordered(nodes, s, false) && MemAscends(nodes, s)
  }

  /** The lowest node not done is ready, so there always is a ready node. */
  lemma AlwaysReady(nodes: seq<Node>, deps: seq<seq<nat>>, s: seq<nat>, done: seq<bool>, emittedDeps: seq<int>,
                    loadOrder: seq<nat>, nextLoad: nat) returns (i: nat)
    requires Topological(nodes) && Greedy(nodes, deps, s, done, emittedDeps, loadOrder, nextLoad) && Left(done) > 0
    ensures i < |nodes| && Ready(nodes, done, emittedDeps, loadOrder, nextLoad, i)
  {
    i := FirstLeft(done);
    assert Backward(nodes, i);
    PendingZero(deps[i], done);
    if IsMemOp(nodes[i].op) {
      var q :| 0 <= q < |loadOrder| && loadOrder[q] == i;
      assert q >= nextLoad;
      assert nextLoad < |loadOrder| && !done[loadOrder[nextLoad]];
      assert nextLoad < q ==> loadOrder[nextLoad] < loadOrder[q];
    }
  }

  lemma ReadyIsFed(nodes: seq<Node>, deps: seq<seq<nat>>, s: seq<nat>, done: seq<bool>, emittedDeps: seq<int>,
                   loadOrder: seq<nat>, nextLoad: nat, i: nat)
    requires Topological(nodes) && Greedy(nodes, deps, s, done, emittedDeps, loadOrder, nextLoad)
    requires i < |nodes| && Ready(nodes, done, emittedDeps, loadOrder, nextLoad, i)
    ensures i !in s && !Scalar(nodes, i) && Fed(nodes, s, i, false)
  {
    assert Backward(nodes, i);
    PendingZero(deps[i], done);
    forall c | 0 <= c < |nodes[i].args| && nodes[i].args[c].ArgNode? && !Scalar(nodes, nodes[i].args[c].index)
      ensures nodes[i].args[c].index in s
    {
      assert nodes[i].args[c] == ArgNode(nodes[i].args[c].index);
      assert nodes[i].args[c].index in deps[i];
    }
  }

  lemma ReadyIsNext(nodes: seq<Node>, deps: seq<seq<nat>>, s: seq<nat>, done: seq<bool>, emittedDeps: seq<int>,
                    loadOrder: seq<nat>, nextLoad: nat, i: nat)
    requires Greedy(nodes, deps, s, done, emittedDeps, loadOrder, nextLoad)
    requires i < |nodes| && Ready(nodes, done, emittedDeps, loadOrder, nextLoad, i)
    ensures MemAscends(nodes, s + [i])
    ensures QueueAt(loadOrder, if IsMemOp(nodes[i].op) then nextLoad + 1 else nextLoad, done[i := true])
  {
    forall k | 0 <= k < |s| && s[k] < |nodes| && IsMemOp(nodes[s[k]].op) && IsMemOp(nodes[i].op)
      ensures s[k] < i
    {
      var q :| 0 <= q < |loadOrder| && loadOrder[q] == s[k];
      assert s[k] in s && done[s[k]];
      assert loadOrder[q] < loadOrder[nextLoad];
    }
    forall q | 0 <= q < |loadOrder|
      ensures done[i := true][loadOrder[q]] <==> q < if IsMemOp(nodes[i].op) then nextLoad + 1 else nextLoad
    {
      assert loadOrder[q] == i ==> IsMemOp(nodes[i].op);
      if IsMemOp(nodes[i].op) {
        assert q < nextLoad ==> loadOrder[q] < loadOrder[nextLoad];
        assert nextLoad < q ==> loadOrder[nextLoad] < loadOrder[q];
      }
    }
  }

  /** Emitting a ready node keeps the walk in order. */
  lemma EmitKeeps(nodes: seq<Node>, deps: seq<seq<nat>>, s: seq<nat>, done: seq<bool>, emittedDeps: seq<int>,
                  loadOrder: seq<nat>, nextLoad: nat, i: nat, retired: seq<int>)
    requires Topological(nodes) && Greedy(nodes, deps, s, done, emittedDeps, loadOrder, nextLoad)
    requires i < |nodes| && Ready(nodes, done, emittedDeps, loadOrder, nextLoad, i)
    requires Tracks(deps, done[i := true], retired)
    ensures Greedy(nodes, deps, s + [i], done[i := true], retired, loadOrder,
                   if IsMemOp(nodes[i].op) then nextLoad + 1 else nextLoad)
    ensures Left(done[i := true]) == Left(done) - 1
  {
    ReadyIsFed(nodes, deps, s, done, emittedDeps, loadOrder, nextLoad, i);
    ReadyIsNext(nodes, deps, s, done, emittedDeps, loadOrder, nextLoad, i);
    OrderedSnoc(nodes, s, i, false);
    LeftRetire(done, i);
  }

  // ----- sinking a splat -----

  /** `s` with the element at `pos` moved to just before position `at`. */
  function Sunk(s: seq<nat>, pos: nat, at: nat): (r: seq<nat>)
    requires pos < at <= |s|
    ensures |r| == |s|
  {
    s[..pos] + s[pos + 1..at] + [s[pos]] + s[at..]
  }

  lemma SunkMultiset(s: seq<nat>, pos: nat, at: nat)
    requires pos < at <= |s|
    ensures multiset(Sunk(s, pos, at)) == multiset(s)
  {
    var a, b, c, d := s[..pos], [s[pos]], s[pos + 1..at], s[at..];
    assert s == a + b + c + d;
  }

  /** Where position `k` of the sunk list comes from. */
  function From(pos: nat, at: nat, k: nat): nat
    requires pos < at
  {
    if k < pos || k >= at then k else if k == at - 1 then pos else k + 1
  }

  lemma SunkAt(s: seq<nat>, pos: nat, at: nat, k: nat)
    requires pos < at <= |s| && k < |s|
    ensures From(pos, at, k) < |s| && Sunk(s, pos, at)[k] == s[From(pos, at, k)]
  {
  }

  /** Only the use of `d` at position `at` counts. */
  lemma {:induction false} OnlyUse(nodes: seq<Node>, s: seq<nat>, p: nat, q: nat, d: nat)
    requires p < q < |s| && s[p] < |nodes| && s[q] < |nodes|
    requires ArgNode(d) in nodes[s[p]].args && ArgNode(d) in nodes[s[q]].args
    ensures SumNames(nodes, s, d) >= 2
    decreases |s|
  {
    var n := |s| - 1;
    if q < n {
      OnlyUse(nodes, s[..n], p, q, d);
    } else {
      OneUse(nodes, s[..n], p, d);
      assert Names(nodes[s[q]], d) >= 1;
    }
  }

  lemma {:induction false} OneUse(nodes: seq<Node>, s: seq<nat>, p: nat, d: nat)
    requires p < |s| && s[p] < |nodes| && ArgNode(d) in nodes[s[p]].args
    ensures SumNames(nodes, s, d) >= 1
    decreases |s|
  {
    var n := |s| - 1;
    if p < n {
      OneUse(nodes, s[..n], p, d);
    } else {
      assert Names(nodes[s[p]], d) >= 1;
    }
  }

  /** A node used only at or after `at` may move there; it must not be a memory operation. */
  lemma SinkKeeps(nodes: seq<Node>, s: seq<nat>, pos: nat, at: nat)
    requires pos < at <= |s| && Ordered(nodes, s, false) && MemAscends(nodes, s)
    requires s[pos] < |nodes| && !IsMemOp(nodes[s[pos]].op)
    requires forall k :: pos < k < at && s[k] < |nodes| ==> ArgNode(s[pos]) !in nodes[s[k]].args
    ensures Ordered(nodes, Sunk(s, pos, at), false) && MemAscends(nodes, Sunk(s, pos, at))
  {
    var t := Sunk(s, pos, at);
    forall j, k | 0 <= j < k < |t|
      ensures t[j] != t[k]
    {
      SunkAt(s, pos, at, j);
      SunkAt(s, pos, at, k);
    }
    forall k | 0 <= k < |t|
      ensures Fed(nodes, t[..k], t[k], false)
    {
      SinkFeeds(nodes, s, pos, at, k);
    }
    forall j, k |
      0 <= j < k < |t| && t[j] < |nodes| && t[k] < |nodes| && IsMemOp(nodes[t[j]].op) && IsMemOp(nodes[t[k]].op)
      ensures t[j] < t[k]
    {
      SunkAt(s, pos, at, j);
      SunkAt(s, pos, at, k);
    }
  }

  lemma SinkFeeds(nodes: seq<Node>, s: seq<nat>, pos: nat, at: nat, k: nat)
    requires pos < at <= |s| && Ordered(nodes, s, false) && k < |s|
    requires forall k :: pos < k < at && s[k] < |nodes| ==> ArgNode(s[pos]) !in nodes[s[k]].args
    ensures Fed(nodes, Sunk(s, pos, at)[..k], Sunk(s, pos, at)[k], false)
  {
    var t := Sunk(s, pos, at);
    SunkAt(s, pos, at, k);
    var o := From(pos, at, k);
    assert Fed(nodes, s[..o], s[o], false);
    forall c | 0 <= c < |nodes[t[k]].args| && nodes[t[k]].args[c].ArgNode? && !Scalar(nodes, nodes[t[k]].args[c].index)
      ensures nodes[t[k]].args[c].index in t[..k]
    {
      var d := nodes[t[k]].args[c].index;
      assert nodes[t[k]].args[c] == ArgNode(d);
      var e :| 0 <= e < o && s[e] == d;
      var f := if e < pos || e >= at then e else if e == pos then at - 1 else e - 1;
      SunkAt(s, pos, at, f);
      assert t[f] == d && f < k;
    }
  }
}
