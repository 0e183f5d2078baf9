/** The greedy walk over vector nodes. */
module ListSchedule {
  import opened Basics
  import opened FusedTree
  import opened Reassociate
  import opened ChainRewrite
  import opened ScheduleOrder
  import opened ScalarSplice

  // ----- which node comes next -----

  /** With `s` scheduled, node `i` may follow: what it reads is there, and memory operations keep their order. */
  ghost predicate Follows(nodes: seq<Node>, s: seq<nat>, i: nat) {
    && i < |nodes| && !Scalar(nodes, i) && i !in s && Fed(nodes, s, i, false)
    && (IsMemOp(nodes[i].op) ==> forall x :: 0 <= x < i && IsMemOp(nodes[x].op) ==> x in s)
  }

  /** How often `d` is still to be read. */
  ghost function Awaiting(nodes: seq<Node>, s: seq<nat>, d: nat): int {
    Uses(nodes, d) - SumNames(nodes, s, d)
  }

  /** The first operand that is a node or a pair. */
  ghost function FirstOperand(args: seq<Arg>): Option<Arg> {
    if args == [] then None
    else if args[0].ArgNode? || args[0].ArgPairIn? then Some(args[0])
    else FirstOperand(args[1..])
  }

  /** It takes over the value computed last, as its first operand. */
  ghost predicate Chaining(nodes: seq<Node>, s: seq<nat>, i: nat) {
    && i < |nodes| && s != [] && Awaiting(nodes, s, s[|s| - 1]) > 0
    && FirstOperand(nodes[i].args) == Some(ArgNode(s[|s| - 1]))
  }

  /** It is the last to read some value. */
  ghost predicate Freeing(nodes: seq<Node>, s: seq<nat>, i: nat) {
    i < |nodes| && exists d :: ArgNode(d) in nodes[i].args && Awaiting(nodes, s, d) == 1
  }

  ghost function Rank(nodes: seq<Node>, s: seq<nat>, i: nat): nat
    requires i < |nodes|
  {
    if IsMemOp(nodes[i].op) then 3 else if Chaining(nodes, s, i) then 0 else if Freeing(nodes, s, i) then 1 else 2
  }

  /** Of the nodes that may follow, `i` has the lowest rank, and is the first of that rank. */
  ghost predicate Best(nodes: seq<Node>, s: seq<nat>, i: nat) {
    && Follows(nodes, s, i)
    && forall x :: Follows(nodes, s, x) ==>
         Rank(nodes, s, i) < Rank(nodes, s, x) || (Rank(nodes, s, i) == Rank(nodes, s, x) && i <= x)
  }

  /** Every node was the best where it was scheduled. */
  ghost predicate BestFirst(nodes: seq<Node>, s: seq<nat>) {
    forall k {:trigger Best(nodes, s[..k], s[k])} :: 0 <= k < |s| ==> Best(nodes, s[..k], s[k])
  }

  lemma BestSnoc(nodes: seq<Node>, s: seq<nat>, i: nat)
    requires BestFirst(nodes, s) && Best(nodes, s, i)
    ensures BestFirst(nodes, s + [i])
  {
    var t := s + [i];
    forall k | 0 <= k < |t|
      ensures Best(nodes, t[..k], t[k])
    {
      assert t[..k] == s[..k];
      if k < |s| {
        assert Best(nodes, s[..k], s[k]);
      }
    }
  }

  /** The counters of the walk say which nodes may follow. */
  lemma ReadyFollows(nodes: seq<Node>, deps: seq<seq<nat>>, s: seq<nat>, done: seq<bool>, emittedDeps: seq<int>,
                     loadOrder: seq<nat>, nextLoad: nat, i: nat)
    requires Topological(nodes) && Greedy(nodes, deps, s, done, emittedDeps, loadOrder, nextLoad) && i < |nodes|
    ensures Ready(nodes, done, emittedDeps, loadOrder, nextLoad, i) <==> Follows(nodes, s, i)
  {
    assert Backward(nodes, i);
    PendingZero(deps[i], done);
    FedByDone(nodes, deps, s, done, i);
    if IsMemOp(nodes[i].op) && !done[i] {
      NextInQueue(nodes, s, done, loadOrder, nextLoad, i);
    }
  }

  lemma FedByDone(nodes: seq<Node>, deps: seq<seq<nat>>, s: seq<nat>, done: seq<bool>, i: nat)
    requires Topological(nodes) && AllDeps(nodes, deps) && DoneIs(nodes, done, s) && i < |nodes|
    ensures Fed(nodes, s, i, false) <==> forall d :: d in deps[i] && d < |done| ==> done[d]
  {
    assert Backward(nodes, i);
    if Fed(nodes, s, i, false) {
      forall d | d in deps[i] && d < |done|
        ensures done[d]
      {
        var c :| 0 <= c < |nodes[i].args| && nodes[i].args[c] == ArgNode(d);
      }
    }
    if forall d :: d in deps[i] && d < |done| ==> done[d] {
      forall c | 0 <= c < |nodes[i].args| && nodes[i].args[c].ArgNode? && !Scalar(nodes, nodes[i].args[c].index)
        ensures nodes[i].args[c].index in s
      {
        assert nodes[i].args[c] in nodes[i].args && nodes[i].args[c].index in deps[i];
      }
    }
  }

  lemma NextInQueue(nodes: seq<Node>, s: seq<nat>, done: seq<bool>, loadOrder: seq<nat>, nextLoad: nat, i: nat)
    requires IsLoadOrder(nodes, loadOrder) && DoneIs(nodes, done, s) && QueueAt(loadOrder, nextLoad, done)
    requires i < |nodes| && IsMemOp(nodes[i].op) && !done[i]
    ensures nextLoad < |loadOrder| && loadOrder[nextLoad] == i <==>
              forall x :: 0 <= x < i && IsMemOp(nodes[x].op) ==> x in s
  {
    var q :| 0 <= q < |loadOrder| && loadOrder[q] == i;
    if q == nextLoad {
      forall x | 0 <= x < i && IsMemOp(nodes[x].op)
        ensures x in s
      {
        var r :| 0 <= r < |loadOrder| && loadOrder[r] == x;
      }
    } else {
      assert loadOrder[nextLoad] < i && !done[loadOrder[nextLoad]];
    }
  }

  // ----- the walk -----

  lemma {:induction false} DepsTimes(args: seq<Arg>, d: nat)
    ensures Times(Deps(args), d) == Times(args, ArgNode(d))
  {
    if args != [] {
      var n := |args| - 1;
      DepsTimes(args[..n], d);
      assert args == args[..n] + [args[n]];
    }
  }

  /** The dependences of node `i`, counted. */
  method DepsOf(nodes: seq<Node>, i: nat, counts: seq<int>) returns (ds: seq<nat>, counts': seq<int>)
    requires Topological(nodes) && i < |nodes| == |counts|
    ensures ds == Deps(nodes[i].args) && |counts'| == |nodes|
    ensures forall d: nat :: d < |nodes| ==> counts'[d] == counts[d] + Names(nodes[i], d)
  {
    assert Backward(nodes, i);
    var args := nodes[i].args;
    ds, counts' := [], counts;
    for c := 0 to |args|
      invariant ds == Deps(args[..c]) && |counts'| == |nodes|
      invariant forall d: nat :: d < |nodes| ==> counts'[d] == counts[d] + Times(args[..c], ArgNode(d))
    {
      assert args[..c + 1][..c] == args[..c];
      assert args[..c + 1] == args[..c] + [args[c]];
      if args[c].ArgNode? {
        ds := ds + [args[c].index];
        counts' := counts'[args[c].index := counts'[args[c].index] + 1];
      }
    }
    assert args[..|args|] == args;
  }

  /** The dependences of every node, and how often each node is consumed. */
  method Dependences(nodes: seq<Node>) returns (deps: seq<seq<nat>>, consumers: seq<int>)
    requires Topological(nodes)
    ensures AllDeps(nodes, deps) && |consumers| == |nodes|
    ensures forall d: nat :: d < |nodes| ==> consumers[d] == Uses(nodes, d)
  {
    deps, consumers := [], seq(|nodes|, _ => 0);
    for i := 0 to |nodes|
      invariant |deps| == i && |consumers| == |nodes|
      invariant forall d: nat :: d < |nodes| ==> consumers[d] == Uses(nodes[..i], d)
      invariant forall j :: 0 <= j < i ==> deps[j] == Deps(nodes[j].args)
    {
      var ds;
      ds, consumers := DepsOf(nodes, i, consumers);
      assert nodes[..i + 1][..i] == nodes[..i];
      deps := deps + [ds];
    }
    assert nodes[..|nodes|] == nodes;
  }

  method LoadOrder(nodes: seq<Node>) returns (loadOrder: seq<nat>)
    ensures IsLoadOrder(nodes, loadOrder)
  {
    loadOrder := [];
    for i := 0 to |nodes|
      invariant Ascending(loadOrder)
      invariant forall q :: 0 <= q < |loadOrder| ==> loadOrder[q] < i && IsMemOp(nodes[loadOrder[q]].op)
      invariant forall x: nat :: x < i && IsMemOp(nodes[x].op) ==> x in loadOrder
    {
      if IsMemOp(nodes[i].op) {
        loadOrder := loadOrder + [i];
      }
    }
  }

  /** Node `i` is done: nobody waits for it any more. */
  method Retire(deps: seq<seq<nat>>, emittedDeps: seq<int>, i: nat, ghost done: seq<bool>) returns (retired: seq<int>)
    requires Tracks(deps, done, emittedDeps) && i < |done| && !done[i]
    ensures Tracks(deps, done[i := true], retired)
  {
    retired := emittedDeps;
    for j := 0 to |deps|
      invariant |retired| == |emittedDeps|
      invariant forall k :: 0 <= k < j ==> retired[k] == Pending(deps[k], done[i := true])
      invariant forall k :: j <= k < |retired| ==> retired[k] == emittedDeps[k]
    {
      for c := 0 to |deps[j]|
        invariant |retired| == |emittedDeps|
        invariant forall k :: 0 <= k < j ==> retired[k] == Pending(deps[k], done[i := true])
        invariant forall k :: j < k < |retired| ==> retired[k] == emittedDeps[k]
        invariant retired[j] == emittedDeps[j] - Times(deps[j][..c], i)
      {
        TimesLast(deps[j], c, i);
        if deps[j][c] == i {
          retired := retired[j := retired[j] - 1];
        }
      }
      assert deps[j][..|deps[j]|] == deps[j];
      PendingRetire(deps[j], done, i);
    }
  }

  /** Scalar nodes count as done from the start. */
  method MarkScalars(nodes: seq<Node>, deps: seq<seq<nat>>)
    returns (done: seq<bool>, emittedDeps: seq<int>, nScalar: nat)
    requires Topological(nodes) && AllDeps(nodes, deps)
    ensures Tracks(deps, done, emittedDeps) && |done| == |nodes|
    ensures forall i: nat :: i < |nodes| ==> (done[i] <==> Scalar(nodes, i))
    ensures Left(done) + nScalar == |nodes|
  {
    done := seq(|nodes|, _ => false);
    emittedDeps := seq(|nodes|, j requires 0 <= j < |nodes| => |deps[j]|);
    nScalar := 0;
    LeftAll(done);
    forall j | 0 <= j < |deps|
      ensures |deps[j]| == Pending(deps[j], done)
    {
      assert Backward(nodes, j);
      forall d | d in deps[j]
        ensures d < |done|
      {
        assert ArgNode(d) in nodes[j].args;
      }
      PendingAll(deps[j], done);
    }
    for i := 0 to |nodes|
      invariant Tracks(deps, done, emittedDeps) && |done| == |nodes|
      invariant forall x: nat :: x < |nodes| ==> (done[x] <==> x < i && Scalar(nodes, x))
      invariant Left(done) + nScalar == |nodes|
    {
      if Scalar(nodes, i) {
        LeftRetire(done, i);
        emittedDeps := Retire(deps, emittedDeps, i, done);
        done := done[i := true];
        nScalar := nScalar + 1;
      }
    }
  }

  lemma {:induction false} FirstAt(args: seq<Arg>, c: nat)
    requires c < |args| && (args[c].ArgNode? || args[c].ArgPairIn?)
    requires forall k :: 0 <= k < c ==> !args[k].ArgNode? && !args[k].ArgPairIn?
    ensures FirstOperand(args) == Some(args[c])
  {
    if c > 0 {
      FirstAt(args[1..], c - 1);
    }
  }

  lemma {:induction false} NoFirst(args: seq<Arg>)
    requires forall k :: 0 <= k < |args| ==> !args[k].ArgNode? && !args[k].ArgPairIn?
    ensures FirstOperand(args) == None
  {
    if args != [] {
      NoFirst(args[1..]);
    }
  }

  /** Does `nd` take the value of `last` as its first vector operand? */
  method Chains(nd: Node, last: nat) returns (chains: bool)
    ensures chains <==> FirstOperand(nd.args) == Some(ArgNode(last))
  {
    for c := 0 to |nd.args|
      invariant forall k :: 0 <= k < c ==> !nd.args[k].ArgNode? && !nd.args[k].ArgPairIn?
    {
      if nd.args[c].ArgNode? || nd.args[c].ArgPairIn? {
        FirstAt(nd.args, c);
        return nd.args[c] == ArgNode(last);
      }
    }
    NoFirst(nd.args);
    return false;
  }

  /** Does one of the values die at its next use? */
  method Frees(ds: seq<nat>, left: seq<int>) returns (frees: bool)
    requires forall d :: d in ds ==> d < |left|
    ensures frees <==> exists d :: d in ds && left[d] == 1
  {
    for c := 0 to |ds|
      invariant forall k :: 0 <= k < c ==> ds[k] in ds && left[ds[k]] != 1
    {
      assert ds[c] in ds;
      if left[ds[c]] == 1 {
        return true;
      }
    }
    return false;
  }

  predicate Pure(nodes: seq<Node>, done: seq<bool>, emittedDeps: seq<int>, loadOrder: seq<nat>, nextLoad: nat, i: nat)
    requires |done| == |emittedDeps| == |nodes| && i < |nodes|
  {
    Ready(nodes, done, emittedDeps, loadOrder, nextLoad, i) && !IsMemOp(nodes[i].op)
  }

  /** The counters of the walk with `s` scheduled. */
  ghost predicate Counters(nodes: seq<Node>, deps: seq<seq<nat>>, s: seq<nat>, done: seq<bool>, emittedDeps: seq<int>,
                           left: seq<int>, loadOrder: seq<nat>, nextLoad: nat, last: Option<nat>) {
    && Greedy(nodes, deps, s, done, emittedDeps, loadOrder, nextLoad) && |left| == |nodes|
    && (forall d: nat :: d < |nodes| ==> left[d] == Awaiting(nodes, s, d))
    && last == if s == [] then None else Some(s[|s| - 1])
  }

  /** What the counters say of node `i`. */
  ghost predicate Told(nodes: seq<Node>, deps: seq<seq<nat>>, s: seq<nat>, done: seq<bool>, emittedDeps: seq<int>,
                       left: seq<int>, loadOrder: seq<nat>, nextLoad: nat, i: nat)
    requires |done| == |emittedDeps| == |deps| == |nodes| && i < |nodes|
  {
    && (forall d :: d in deps[i] ==> d < |left|)
    && (Ready(nodes, done, emittedDeps, loadOrder, nextLoad, i) <==> Follows(nodes, s, i))
    && (Freeing(nodes, s, i) <==> exists d :: d in deps[i] && d < |left| && left[d] == 1)
  }

  ghost predicate Tells(nodes: seq<Node>, deps: seq<seq<nat>>, s: seq<nat>, done: seq<bool>, emittedDeps: seq<int>,
                        left: seq<int>, loadOrder: seq<nat>, nextLoad: nat) {
    && |done| == |emittedDeps| == |deps| == |nodes|
    && forall i {:trigger Told(nodes, deps, s, done, emittedDeps, left, loadOrder, nextLoad, i)} ::
         0 <= i < |nodes| ==> Told(nodes, deps, s, done, emittedDeps, left, loadOrder, nextLoad, i)
  }

  lemma CountersTell(nodes: seq<Node>, deps: seq<seq<nat>>, s: seq<nat>, done: seq<bool>, emittedDeps: seq<int>,
                     left: seq<int>, loadOrder: seq<nat>, nextLoad: nat, last: Option<nat>)
    requires Topological(nodes) && Counters(nodes, deps, s, done, emittedDeps, left, loadOrder, nextLoad, last)
    ensures Tells(nodes, deps, s, done, emittedDeps, left, loadOrder, nextLoad)
  {
    forall i | 0 <= i < |nodes|
      ensures Told(nodes, deps, s, done, emittedDeps, left, loadOrder, nextLoad, i)
    {
      ReadyFollows(nodes, deps, s, done, emittedDeps, loadOrder, nextLoad, i);
      assert Backward(nodes, i);
      FreeingTold(nodes, deps, s, left, i);
    }
  }

  lemma FreeingTold(nodes: seq<Node>, deps: seq<seq<nat>>, s: seq<nat>, left: seq<int>, i: nat)
    requires AllDeps(nodes, deps) && i < |nodes| == |left| && Backward(nodes, i)
    requires forall d: nat :: d < |nodes| ==> left[d] == Awaiting(nodes, s, d)
    ensures forall d :: d in deps[i] ==> d < |left|
    ensures Freeing(nodes, s, i) <==> exists d :: d in deps[i] && d < |left| && left[d] == 1
  {
    forall d: nat
      ensures d in deps[i] <==> ArgNode(d) in nodes[i].args
      ensures d in deps[i] ==> d < |left|
    {
      if ArgNode(d) in nodes[i].args {
        var c :| 0 <= c < |nodes[i].args| && nodes[i].args[c] == ArgNode(d);
      }
    }
  }

  /** No node below `n` that may follow has rank `rank`. */
  ghost predicate NoneOf(nodes: seq<Node>, s: seq<nat>, n: nat, rank: nat)
    requires n <= |nodes|
  {
    forall x: nat {:trigger Rank(nodes, s, x)} :: x < n && Follows(nodes, s, x) ==> Rank(nodes, s, x) != rank
  }

  ghost predicate FirstOf(nodes: seq<Node>, s: seq<nat>, i: nat, rank: nat) {
    i < |nodes| && Follows(nodes, s, i) && Rank(nodes, s, i) == rank && NoneOf(nodes, s, i, rank)
  }

  /** The first node that takes over the last value. */
  method PickChaining(nodes: seq<Node>, ghost deps: seq<seq<nat>>, done: seq<bool>, emittedDeps: seq<int>,
                      left: seq<int>, loadOrder: seq<nat>, nextLoad: nat, last: Option<nat>, ghost s: seq<nat>)
    returns (pick: Option<nat>)
    requires Tells(nodes, deps, s, done, emittedDeps, left, loadOrder, nextLoad) && |left| == |nodes|
    requires last == if s == [] then None else Some(s[|s| - 1])
    requires last.Some? ==> last.value < |nodes| && left[last.value] == Awaiting(nodes, s, last.value)
    ensures pick.Some? ==> FirstOf(nodes, s, pick.value, 0)
    ensures pick.None? ==> NoneOf(nodes, s, |nodes|, 0)
  {
    if last.Some? && left[last.value] > 0 {
      for i := 0 to |nodes|
        invariant NoneOf(nodes, s, i, 0)
      {
        assert Told(nodes, deps, s, done, emittedDeps, left, loadOrder, nextLoad, i);
        if Pure(nodes, done, emittedDeps, loadOrder, nextLoad, i) {
          var chains := Chains(nodes[i], last.value);
          if chains {
            return Some(i);
          }
        }
      }
    }
    return None;
  }

  /** The first node that is the last to read some value. */
  method PickFreeing(nodes: seq<Node>, deps: seq<seq<nat>>, done: seq<bool>, emittedDeps: seq<int>, left: seq<int>,
                     loadOrder: seq<nat>, nextLoad: nat, ghost s: seq<nat>) returns (pick: Option<nat>)
    requires Tells(nodes, deps, s, done, emittedDeps, left, loadOrder, nextLoad) && NoneOf(nodes, s, |nodes|, 0)
    ensures pick.Some? ==> FirstOf(nodes, s, pick.value, 1)
    ensures pick.None? ==> NoneOf(nodes, s, |nodes|, 1)
  {
    for i := 0 to |nodes|
      invariant NoneOf(nodes, s, i, 1)
    {
      assert Told(nodes, deps, s, done, emittedDeps, left, loadOrder, nextLoad, i);
      if Pure(nodes, done, emittedDeps, loadOrder, nextLoad, i) {
        assert Rank(nodes, s, i) != 0;
        var frees := Frees(deps[i], left);
        if frees {
          return Some(i);
        }
      }
    }
    return None;
  }

  /** The first node other than a memory operation. */
  method PickPure(nodes: seq<Node>, ghost deps: seq<seq<nat>>, done: seq<bool>, emittedDeps: seq<int>,
                  ghost left: seq<int>, loadOrder: seq<nat>, nextLoad: nat, ghost s: seq<nat>)
    returns (pick: Option<nat>)
    requires Tells(nodes, deps, s, done, emittedDeps, left, loadOrder, nextLoad)
    requires NoneOf(nodes, s, |nodes|, 0) && NoneOf(nodes, s, |nodes|, 1)
    ensures pick.Some? ==> FirstOf(nodes, s, pick.value, 2)
    ensures pick.None? ==> NoneOf(nodes, s, |nodes|, 2)
  {
    for i := 0 to |nodes|
      invariant NoneOf(nodes, s, i, 2)
    {
      assert Told(nodes, deps, s, done, emittedDeps, left, loadOrder, nextLoad, i);
      if Pure(nodes, done, emittedDeps, loadOrder, nextLoad, i) {
        assert Rank(nodes, s, i) != 0 && Rank(nodes, s, i) != 1;
        return Some(i);
      }
    }
    return None;
  }

  /** Whatever may follow has at least that rank. */
  ghost predicate NoneBelow(nodes: seq<Node>, s: seq<nat>, rank: nat) {
    forall x: nat {:trigger Rank(nodes, s, x)} :: x < |nodes| && Follows(nodes, s, x) ==> Rank(nodes, s, x) >= rank
  }

  lemma FirstIsBest(nodes: seq<Node>, s: seq<nat>, i: nat, rank: nat)
    requires FirstOf(nodes, s, i, rank) && NoneBelow(nodes, s, rank)
    ensures Best(nodes, s, i)
  {
  }

  /** The next node: a ready pure one that chains, or frees a value, or any; else the next
      memory operation.  None only if nothing is ready. */
  method Pick(nodes: seq<Node>, deps: seq<seq<nat>>, done: seq<bool>, emittedDeps: seq<int>, left: seq<int>,
              loadOrder: seq<nat>, nextLoad: nat, last: Option<nat>, ghost s: seq<nat>) returns (pick: Option<nat>)
    requires Topological(nodes) && Counters(nodes, deps, s, done, emittedDeps, left, loadOrder, nextLoad, last)
    ensures pick.Some? ==> Best(nodes, s, pick.value)
    ensures pick.None? ==> forall i :: !Follows(nodes, s, i)
  {
    CountersTell(nodes, deps, s, done, emittedDeps, left, loadOrder, nextLoad, last);
    OrderedRange(nodes, s, false);
    pick := PickChaining(nodes, deps, done, emittedDeps, left, loadOrder, nextLoad, last, s);
    if pick.Some? {
      FirstIsBest(nodes, s, pick.value, 0);
      return;
    }
    assert NoneBelow(nodes, s, 1);
    pick := PickFreeing(nodes, deps, done, emittedDeps, left, loadOrder, nextLoad, s);
    if pick.Some? {
      FirstIsBest(nodes, s, pick.value, 1);
      return;
    }
    assert NoneBelow(nodes, s, 2);
    pick := PickPure(nodes, deps, done, emittedDeps, left, loadOrder, nextLoad, s);
    if pick.Some? {
      FirstIsBest(nodes, s, pick.value, 2);
      return;
    }
    OnlyMemory(nodes, deps, s, done, emittedDeps, left, loadOrder, nextLoad);
    if nextLoad < |loadOrder| && Ready(nodes, done, emittedDeps, loadOrder, nextLoad, loadOrder[nextLoad]) {
      return Some(loadOrder[nextLoad]);
    }
    return None;
  }

  /** With no other node left, the next memory operation is the only one that may follow. */
  lemma OnlyMemory(nodes: seq<Node>, deps: seq<seq<nat>>, s: seq<nat>, done: seq<bool>, emittedDeps: seq<int>,
                   left: seq<int>, loadOrder: seq<nat>, nextLoad: nat)
    requires Tells(nodes, deps, s, done, emittedDeps, left, loadOrder, nextLoad)
    requires IsLoadOrder(nodes, loadOrder)
    requires NoneOf(nodes, s, |nodes|, 0) && NoneOf(nodes, s, |nodes|, 1) && NoneOf(nodes, s, |nodes|, 2)
    ensures forall i: nat :: Follows(nodes, s, i) <==>
              nextLoad < |loadOrder| && i == loadOrder[nextLoad]
              && Ready(nodes, done, emittedDeps, loadOrder, nextLoad, i)
  {
    forall i: nat
      ensures Follows(nodes, s, i) <==>
                nextLoad < |loadOrder| && i == loadOrder[nextLoad]
                && Ready(nodes, done, emittedDeps, loadOrder, nextLoad, i)
    {
      if i < |nodes| {
        assert Told(nodes, deps, s, done, emittedDeps, left, loadOrder, nextLoad, i);
        assert Follows(nodes, s, i) ==> Rank(nodes, s, i) == 3;
      }
    }
  }

  /** Node `i` has read its operands. */
  method Read(nodes: seq<Node>, deps: seq<seq<nat>>, ghost s: seq<nat>, left: seq<int>, i: nat)
    returns (left': seq<int>)
    requires Topological(nodes) && AllDeps(nodes, deps) && i < |nodes| == |left|
    requires forall d: nat :: d < |nodes| ==> left[d] == Awaiting(nodes, s, d)
    ensures |left'| == |nodes| && forall d: nat :: d < |nodes| ==> left'[d] == Awaiting(nodes, s + [i], d)
  {
    left' := left;
    assert Backward(nodes, i);
    for c := 0 to |deps[i]|
      invariant |left'| == |nodes|
      invariant forall d: nat :: d < |nodes| ==> left'[d] == left[d] - Times(deps[i][..c], d)
    {
      assert deps[i][c] in deps[i];
      assert deps[i][..c + 1] == deps[i][..c] + [deps[i][c]];
      left' := left'[deps[i][c] := left'[deps[i][c]] - 1];
    }
    assert deps[i][..|deps[i]|] == deps[i] && (s + [i])[..|s|] == s;
    forall d: nat | d < |nodes|
      ensures left'[d] == Awaiting(nodes, s + [i], d)
    {
      DepsTimes(nodes[i].args, d);
    }
  }

  /** Node `i` is scheduled: the counters move on. */
  method Emit(nodes: seq<Node>, deps: seq<seq<nat>>, ghost s: seq<nat>, done: seq<bool>, emittedDeps: seq<int>,
              left: seq<int>, ghost loadOrder: seq<nat>, nextLoad: nat, ghost last: Option<nat>, i: nat)
    returns (done': seq<bool>, emittedDeps': seq<int>, left': seq<int>, nextLoad': nat)
    requires Topological(nodes) && Counters(nodes, deps, s, done, emittedDeps, left, loadOrder, nextLoad, last)
    requires Best(nodes, s, i)
    ensures Counters(nodes, deps, s + [i], done', emittedDeps', left', loadOrder, nextLoad', Some(i))
    ensures done' == done[i := true] && Left(done') == Left(done) - 1
  {
    ReadyFollows(nodes, deps, s, done, emittedDeps, loadOrder, nextLoad, i);
    emittedDeps' := Retire(deps, emittedDeps, i, done);
    EmitKeeps(nodes, deps, s, done, emittedDeps, loadOrder, nextLoad, i, emittedDeps');
    LeftRetire(done, i);
    done', nextLoad' := done[i := true], if IsMemOp(nodes[i].op) then nextLoad + 1 else nextLoad;
    left' := Read(nodes, deps, s, left, i);
  }

  /** Schedules the vector nodes.  The walk never runs out of ready nodes. */
  method Walk(nodes: seq<Node>) returns (scheduled: seq<nat>, nScalar: nat)
    requires Topological(nodes)
    ensures Ordered(nodes, scheduled, false) && MemAscends(nodes, scheduled) && BestFirst(nodes, scheduled)
    ensures forall v: nat :: v < |nodes| ==> (v in scheduled <==> !Scalar(nodes, v))
    ensures nScalar == 0 ==> forall v: nat :: v < |nodes| ==> !Scalar(nodes, v)
  {
    var n := |nodes|;
    var deps, consumers := Dependences(nodes);
    var loadOrder := LoadOrder(nodes);
    var done, emittedDeps;
    done, emittedDeps, nScalar := MarkScalars(nodes, deps);
    if nScalar == 0 {
      AllLeft(done);
    }
    var left := consumers;
    var nextLoad: nat := 0;
    var last: Option<nat> := None;
    scheduled := [];
    while |scheduled| < n - nScalar
      invariant Counters(nodes, deps, scheduled, done, emittedDeps, left, loadOrder, nextLoad, last)
      invariant |scheduled| + Left(done) + nScalar == n && BestFirst(nodes, scheduled)
      decreases Left(done)
    {
      var pick := Pick(nodes, deps, done, emittedDeps, left, loadOrder, nextLoad, last, scheduled);
      ghost var ready := AlwaysReady(nodes, deps, scheduled, done, emittedDeps, loadOrder, nextLoad);
      ReadyFollows(nodes, deps, scheduled, done, emittedDeps, loadOrder, nextLoad, ready);
      if pick == None {
        assert false;
      }
      var i := pick.value;
      BestSnoc(nodes, scheduled, i);
      done, emittedDeps, left, nextLoad :=
        Emit(nodes, deps, scheduled, done, emittedDeps, left, loadOrder, nextLoad, last, i);
      scheduled, last := scheduled + [i], Some(i);
    }
    LeftNone(done);
  }

  lemma {:induction false} AllLeft(done: seq<bool>)
    requires Left(done) == |done|
    ensures forall i :: 0 <= i < |done| ==> !done[i]
  {
    if done != [] {
      LeftBound(done[..|done| - 1]);
      AllLeft(done[..|done| - 1]);
    }
  }

  lemma {:induction false} LeftBound(done: seq<bool>)
    ensures Left(done) <= |done|
  {
    if done != [] {
      LeftBound(done[..|done| - 1]);
    }
  }
}
