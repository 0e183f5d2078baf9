/** Left-folding of trees of one associative operation. */
module Reassociate {
  import opened Basics
  import opened FusedTree

  // ----- how often a node is used -----

  /** How many arguments of the list name node `i`. */
  ghost function Uses(nodes: seq<Node>, i: nat): nat {
    if nodes == [] then 0 else Uses(nodes[..|nodes| - 1], i) + Names(nodes[|nodes| - 1], i)
  }

  ghost function Names(nd: Node, i: nat): nat {
    multiset(nd.args)[ArgNode(i)]
  }

  lemma {:induction false} UsesUpdate(nodes: seq<Node>, x: nat, nd: Node, i: nat)
    requires x < |nodes|
    ensures Uses(nodes[x := nd], i) == Uses(nodes, i) + Names(nd, i) - Names(nodes[x], i)
  {
    var n := |nodes| - 1;
    if x == n {
      assert nodes[x := nd][..n] == nodes[..n];
    } else {
      UsesUpdate(nodes[..n], x, nd, i);
      assert nodes[x := nd][..n] == nodes[..n][x := nd];
    }
  }

  lemma {:induction false} UsedBy(nodes: seq<Node>, x: nat, i: nat)
    requires x < |nodes| && ArgNode(i) in nodes[x].args
    ensures Uses(nodes, i) >= 1
  {
    var n := |nodes| - 1;
    assert Names(nodes[x], i) >= 1;
    if x < n {
      UsedBy(nodes[..n], x, i);
    }
  }

  lemma {:induction false} UserOf(nodes: seq<Node>, i: nat) returns (x: nat)
    requires Uses(nodes, i) >= 1
    ensures x < |nodes| && ArgNode(i) in nodes[x].args
  {
    var n := |nodes| - 1;
    if Names(nodes[n], i) >= 1 {
      x := n;
    } else {
      x := UserOf(nodes[..n], i);
    }
  }

  /** A node used once has one user. */
  lemma {:induction false} OneUser(nodes: seq<Node>, x: nat, y: nat, i: nat)
    requires x < y < |nodes| && ArgNode(i) in nodes[x].args && ArgNode(i) in nodes[y].args
    ensures Uses(nodes, i) >= 2
  {
    var n := |nodes| - 1;
    if y == n {
      UsedBy(nodes[..n], x, i);
      assert Names(nodes[n], i) >= 1;
    } else {
      OneUser(nodes[..n], x, y, i);
    }
  }

  // ----- the tree under a head -----

  /** The nodes that may be interior to the chain of `head`. */
  ghost function Inner(nodes: seq<Node>, consumers: seq<nat>, roots: set<nat>, inChain: seq<bool>,
                       head: nat): (r: set<nat>)
    requires |consumers| == |inChain| == |nodes| && head < |nodes|
    ensures forall i: nat :: i in r <==> i < |nodes| && Qualifies(nodes, consumers, roots, inChain, head, i)
  {
    InnerBelow(nodes, consumers, roots, inChain, head, |nodes|)
  }

  ghost function InnerBelow(nodes: seq<Node>, consumers: seq<nat>, roots: set<nat>, inChain: seq<bool>, head: nat,
                            n: nat): (r: set<nat>)
    requires |consumers| == |inChain| == |nodes| && head < |nodes| && n <= |nodes|
    ensures forall i: nat :: i in r <==> i < n && Qualifies(nodes, consumers, roots, inChain, head, i)
  {
    if n == 0 then {}
    else InnerBelow(nodes, consumers, roots, inChain, head, n - 1)
         + if Qualifies(nodes, consumers, roots, inChain, head, n - 1) then {n - 1} else {}
  }

  predicate Qualifies(nodes: seq<Node>, consumers: seq<nat>, roots: set<nat>, inChain: seq<bool>, head: nat, i: nat)
    requires |consumers| == |inChain| == |nodes| && head < |nodes| && i < |nodes|
  {
    i != head && nodes[i].op == nodes[head].op && |nodes[i].args| == 2 && consumers[i] == 1
      && i !in roots && !inChain[i]
  }

  function Height(a: Arg): nat {
    if a.ArgNode? then a.index + 1 else 0
  }

  /** Nodes of `inner` all compute `op` from two earlier arguments. */
  ghost predicate Binary(nodes: seq<Node>, inner: set<nat>, op: Op) {
    forall i :: i in inner ==> i < |nodes| && nodes[i].op == op && |nodes[i].args| == 2
  }

  /** The interior nodes reached from argument `a`, parents first. */
  ghost function Interior(nodes: seq<Node>, inner: set<nat>, op: Op, a: Arg): seq<nat>
    requires Topological(nodes) && Binary(nodes, inner, op)
    decreases Height(a)
  {
    if a.ArgNode? && a.index in inner then
      assert Backward(nodes, a.index);
      [a.index] + Interior(nodes, inner, op, nodes[a.index].args[0])
        + Interior(nodes, inner, op, nodes[a.index].args[1])
    else []
  }

  /** The leaves under argument `a`, from left to right. */
  ghost function Leaves(nodes: seq<Node>, inner: set<nat>, op: Op, a: Arg): (r: seq<Arg>)
    requires Topological(nodes) && Binary(nodes, inner, op)
    ensures r != []
    decreases Height(a)
  {
    if a.ArgNode? && a.index in inner then
      assert Backward(nodes, a.index);
      Leaves(nodes, inner, op, nodes[a.index].args[0]) + Leaves(nodes, inner, op, nodes[a.index].args[1])
    else [a]
  }

  lemma {:induction false} LeavesOutside(nodes: seq<Node>, inner: set<nat>, op: Op, a: Arg)
    requires Topological(nodes) && Binary(nodes, inner, op)
    ensures forall l :: l in Leaves(nodes, inner, op, a) ==> !(l.ArgNode? && l.index in inner) && Height(l) <= Height(a)
    ensures forall i :: i in Interior(nodes, inner, op, a) ==> i in inner && i < Height(a)
    decreases Height(a)
  {
    if a.ArgNode? && a.index in inner {
      assert Backward(nodes, a.index);
      LeavesOutside(nodes, inner, op, nodes[a.index].args[0]);
      LeavesOutside(nodes, inner, op, nodes[a.index].args[1]);
    }
  }

  /** Every interior node is `a` itself or an argument of another interior node. */
  lemma {:induction false} InteriorUser(nodes: seq<Node>, inner: set<nat>, op: Op, a: Arg, i: nat)
    requires Topological(nodes) && Binary(nodes, inner, op) && i in Interior(nodes, inner, op, a)
    ensures a == ArgNode(i)
            || exists x :: x in Interior(nodes, inner, op, a) && x < |nodes| && ArgNode(i) in nodes[x].args
    decreases Height(a)
  {
    assert Backward(nodes, a.index);
    var args := nodes[a.index].args;
    var whole := Interior(nodes, inner, op, a);
    assert a.index in whole;
    if a.index != i {
      var c := if i in Interior(nodes, inner, op, args[0]) then 0 else 1;
      var sub := Interior(nodes, inner, op, args[c]);
      InteriorUser(nodes, inner, op, args[c], i);
      if args[c] == ArgNode(i) {
        assert ArgNode(i) in nodes[a.index].args;
      } else {
        var x :| x in sub && x < |nodes| && ArgNode(i) in nodes[x].args;
        assert x in whole;
      }
    }
  }

  // ----- values -----

  ghost function ArgVal<V, M>(sem: Sem<V, M>, nodes: seq<Node>, m0: M, a: Arg): V {
    if a.ArgNode? && a.index < |nodes| then Val(sem, nodes, m0, a.index) else sem.leaf(a)
  }

  ghost function ArgVals<V, M>(sem: Sem<V, M>, nodes: seq<Node>, m0: M, args: seq<Arg>): (r: seq<V>)
    ensures |r| == |args|
  {
    if args == [] then [] else ArgVals(sem, nodes, m0, args[..|args| - 1]) + [ArgVal(sem, nodes, m0, args[|args| - 1])]
  }

  lemma {:induction false} ArgValsConcat<V, M>(sem: Sem<V, M>, nodes: seq<Node>, m0: M, a: seq<Arg>, b: seq<Arg>)
    ensures ArgVals(sem, nodes, m0, a + b) == ArgVals(sem, nodes, m0, a) + ArgVals(sem, nodes, m0, b)
  {
    if b == [] {
      assert a + b == a;
    } else {
      var n := |b| - 1;
      ArgValsConcat(sem, nodes, m0, a, b[..n]);
      assert (a + b)[..|a| + n] == a + b[..n];
    }
  }

  ghost function Fold<V, M>(sem: Sem<V, M>, op: Op, vs: seq<V>): V
    requires vs != []
  {
    if |vs| == 1 then vs[0] else sem.pure(op, [Fold(sem, op, vs[..|vs| - 1]), vs[|vs| - 1]])
  }

  lemma {:induction false} FoldConcat<V(!new), M>(sem: Sem<V, M>, op: Op, a: seq<V>, b: seq<V>)
    requires Associates(sem) && op.VecAssoc? && a != [] && b != []
    ensures Fold(sem, op, a + b) == sem.pure(op, [Fold(sem, op, a), Fold(sem, op, b)])
  {
    var n := |b| - 1;
    var x := Fold(sem, op, a);
    assert (a + b)[..|a| + n] == a + b[..n];
    if n == 0 {
      assert a + b[..0] == a;
    } else {
      FoldConcat(sem, op, a, b[..n]);
      assert sem.pure(op, [sem.pure(op, [x, Fold(sem, op, b[..n])]), b[n]])
             == sem.pure(op, [x, sem.pure(op, [Fold(sem, op, b[..n]), b[n]])]);
    }
  }

  /** A node over two arguments computes from their values. */
  lemma BinaryVal<V, M>(sem: Sem<V, M>, nodes: seq<Node>, m0: M, i: nat)
    requires Topological(nodes) && i < |nodes| && nodes[i].op.VecAssoc? && |nodes[i].args| == 2
    ensures Val(sem, nodes, m0, i) ==
            sem.pure(nodes[i].op, [ArgVal(sem, nodes, m0, nodes[i].args[0]), ArgVal(sem, nodes, m0, nodes[i].args[1])])
  {
    assert Backward(nodes, i);
    var args := nodes[i].args;
    assert Ops(sem, nodes, m0, i, 1) == [ArgVal(sem, nodes, m0, args[0])];
    assert Ops(sem, nodes, m0, i, 2) == [ArgVal(sem, nodes, m0, args[0]), ArgVal(sem, nodes, m0, args[1])];
  }

  /** A tree is the fold of its leaves. */
  lemma {:induction false} TreeVal<V(!new), M>(sem: Sem<V, M>, nodes: seq<Node>, m0: M, inner: set<nat>, op: Op, a: Arg)
    requires Associates(sem) && op.VecAssoc? && Topological(nodes) && Binary(nodes, inner, op)
    ensures ArgVal(sem, nodes, m0, a) == Fold(sem, op, ArgVals(sem, nodes, m0, Leaves(nodes, inner, op, a)))
    decreases Height(a)
  {
    if a.ArgNode? && a.index in inner {
      assert Backward(nodes, a.index);
      var a0, a1 := nodes[a.index].args[0], nodes[a.index].args[1];
      TreeVal(sem, nodes, m0, inner, op, a0);
      TreeVal(sem, nodes, m0, inner, op, a1);
      var l0, l1 := Leaves(nodes, inner, op, a0), Leaves(nodes, inner, op, a1);
      ArgValsConcat(sem, nodes, m0, l0, l1);
      FoldConcat(sem, op, ArgVals(sem, nodes, m0, l0), ArgVals(sem, nodes, m0, l1));
      BinaryVal(sem, nodes, m0, a.index);
    } else {
      assert Leaves(nodes, inner, op, a)[..0] == [];
    }
  }

  // ----- the rewritten chain -----

  /** The new arguments of slot `k`: the running fold, and the next leaf. */
  function SlotArgs(slots: seq<nat>, leaves: seq<Arg>, k: nat): seq<Arg>
    requires k < |slots| && |leaves| == |slots| + 1
  {
    [if k == 0 then leaves[0] else ArgNode(slots[k - 1]), leaves[k + 1]]
  }

  /** `r` is `nodes` with the first `done` slots rewritten. */
  ghost predicate Rehung(nodes: seq<Node>, r: seq<Node>, slots: seq<nat>, leaves: seq<Arg>, done: nat)
    requires done <= |slots| && |leaves| == |slots| + 1
  {
    && |r| == |nodes|
    && (forall k :: 0 <= k < |slots| ==> slots[k] < |nodes|)
    && (forall k {:trigger SlotArgs(slots, leaves, k)} :: 0 <= k < done ==>
          r[slots[k]] == nodes[slots[k]].(args := SlotArgs(slots, leaves, k)))
    && (forall x :: 0 <= x < |nodes| && x !in slots[..done] ==> r[x] == nodes[x])
  }

  /** Every leaf comes before the slot that takes it. */
  ghost predicate LeavesFit(slots: seq<nat>, leaves: seq<Arg>)
    requires |leaves| == |slots| + 1
  {
    && (leaves[0].ArgNode? && slots != [] ==> leaves[0].index < slots[0])
    && forall k :: 0 <= k < |slots| && leaves[k + 1].ArgNode? ==> leaves[k + 1].index < slots[k]
  }

  /** A chain that may be rewritten: the last slot is its head, the others are
      used by the chain alone and are no leaves. */
  ghost predicate ChainOk(nodes: seq<Node>, slots: seq<nat>, leaves: seq<Arg>, op: Op) {
    && op.VecAssoc? && slots != [] && |leaves| == |slots| + 1 && Ascending(slots) && LeavesFit(slots, leaves)
    && (forall k :: 0 <= k < |slots| ==> slots[k] < |nodes| && nodes[slots[k]].op == op && |nodes[slots[k]].args| == 2)
    && (forall l :: l in leaves && l.ArgNode? ==> l.index !in slots[..|slots| - 1])
    && (forall x, i :: 0 <= x < |nodes| && x !in slots && ArgNode(i) in nodes[x].args ==> i !in slots[..|slots| - 1])
  }

  lemma RehungTopological(nodes: seq<Node>, r: seq<Node>, slots: seq<nat>, leaves: seq<Arg>, op: Op)
    requires Topological(nodes) && ChainOk(nodes, slots, leaves, op) && Rehung(nodes, r, slots, leaves, |slots|)
    ensures Topological(r)
  {
    assert slots[..|slots|] == slots;
    forall x | 0 <= x < |r|
      ensures Backward(r, x)
    {
      assert Backward(nodes, x);
      if x in slots {
        var k :| 0 <= k < |slots| && slots[k] == x;
        assert r[x].args == SlotArgs(slots, leaves, k);
        if k > 0 {
          assert slots[k - 1] < slots[k];
        }
      }
    }
  }

  lemma FoldStep<V, M>(sem: Sem<V, M>, nodes: seq<Node>, m0: M, op: Op, leaves: seq<Arg>, k: nat)
    requires k + 1 < |leaves|
    ensures var first := if k == 0 then ArgVal(sem, nodes, m0, leaves[0])
                         else Fold(sem, op, ArgVals(sem, nodes, m0, leaves[..k + 1]));
            Fold(sem, op, ArgVals(sem, nodes, m0, leaves[..k + 2]))
            == sem.pure(op, [first, ArgVal(sem, nodes, m0, leaves[k + 1])])
  {
    var vs := ArgVals(sem, nodes, m0, leaves[..k + 1]);
    assert leaves[..k + 2][..k + 1] == leaves[..k + 1];
    assert ArgVals(sem, nodes, m0, leaves[..k + 2]) == vs + [ArgVal(sem, nodes, m0, leaves[k + 1])];
    assert (vs + [ArgVal(sem, nodes, m0, leaves[k + 1])])[..k + 1] == vs;
    if k == 0 {
      assert leaves[..1][..0] == [];
      assert vs == [ArgVal(sem, nodes, m0, leaves[0])];
    }
  }

  /** What a rewritten slot computes. */
  lemma SlotComputes<V, M>(sem: Sem<V, M>, nodes: seq<Node>, r: seq<Node>, m0: M,
                           slots: seq<nat>, leaves: seq<Arg>, op: Op, k: nat)
    requires ChainOk(nodes, slots, leaves, op) && Rehung(nodes, r, slots, leaves, |slots|)
             && Topological(r) && k < |slots|
    ensures var first := if k == 0 then leaves[0] else ArgNode(slots[k - 1]);
            Val(sem, r, m0, slots[k])
            == sem.pure(op, [ArgVal(sem, r, m0, first), ArgVal(sem, r, m0, leaves[k + 1])])
  {
    assert r[slots[k]].args == SlotArgs(slots, leaves, k);
    BinaryVal(sem, r, m0, slots[k]);
  }

  /** The leaves of slot `k` come earlier and are not interior. */
  lemma LeafFacts(nodes: seq<Node>, slots: seq<nat>, leaves: seq<Arg>, op: Op, k: nat)
    requires ChainOk(nodes, slots, leaves, op) && k < |slots|
    ensures slots[k] < |nodes| && (k > 0 ==> slots[k - 1] < slots[k])
    ensures leaves[k + 1].ArgNode? ==> leaves[k + 1].index < slots[k] && leaves[k + 1].index !in slots[..|slots| - 1]
    ensures k == 0 && leaves[0].ArgNode? ==> leaves[0].index < slots[0] && leaves[0].index !in slots[..|slots| - 1]
  {
    assert leaves[k + 1] in leaves && leaves[0] in leaves;
  }

  /** Slot `k` holds the fold of the first `k + 2` leaves. */
  lemma {:induction false} SlotVal<V(!new), M>(sem: Sem<V, M>, nodes: seq<Node>, r: seq<Node>, m0: M,
                                               slots: seq<nat>, leaves: seq<Arg>, op: Op, k: nat, taken: seq<Arg>)
    requires Topological(nodes) && Topological(r) && ChainOk(nodes, slots, leaves, op)
    requires Rehung(nodes, r, slots, leaves, |slots|) && HeadFolds(sem, nodes, m0, slots, leaves, op)
    requires k < |slots| && taken == leaves[..k + 2]
    ensures Val(sem, r, m0, slots[k]) == Fold(sem, op, ArgVals(sem, nodes, m0, taken))
    decreases slots[k], 0
  {
    LeafFacts(nodes, slots, leaves, op, k);
    var l, l0 := leaves[k + 1], leaves[0];
    if l.ArgNode? {
      SameOutside(sem, nodes, r, m0, slots, leaves, op, l.index);
    }
    LeafSame(sem, nodes, r, m0, l);
    if k == 0 {
      if l0.ArgNode? {
        SameOutside(sem, nodes, r, m0, slots, leaves, op, l0.index);
      }
      LeafSame(sem, nodes, r, m0, l0);
    } else {
      SlotVal(sem, nodes, r, m0, slots, leaves, op, k - 1, leaves[..k + 1]);
    }
    SlotIsFold(sem, nodes, r, m0, slots, leaves, op, k);
  }

  lemma LeafSame<V, M>(sem: Sem<V, M>, nodes: seq<Node>, r: seq<Node>, m0: M, l: Arg)
    requires |r| == |nodes|
             && (l.ArgNode? ==> l.index < |nodes| && Val(sem, r, m0, l.index) == Val(sem, nodes, m0, l.index))
    ensures ArgVal(sem, r, m0, l) == ArgVal(sem, nodes, m0, l)
  {
  }

  lemma SlotIsFold<V, M>(sem: Sem<V, M>, nodes: seq<Node>, r: seq<Node>, m0: M,
                         slots: seq<nat>, leaves: seq<Arg>, op: Op, k: nat)
    requires ChainOk(nodes, slots, leaves, op) && Rehung(nodes, r, slots, leaves, |slots|)
             && Topological(r) && k < |slots|
    requires ArgVal(sem, r, m0, leaves[k + 1]) == ArgVal(sem, nodes, m0, leaves[k + 1])
    requires k == 0 ==> ArgVal(sem, r, m0, leaves[0]) == ArgVal(sem, nodes, m0, leaves[0])
    requires k > 0 ==> Val(sem, r, m0, slots[k - 1]) == Fold(sem, op, ArgVals(sem, nodes, m0, leaves[..k + 1]))
    ensures Val(sem, r, m0, slots[k]) == Fold(sem, op, ArgVals(sem, nodes, m0, leaves[..k + 2]))
  {
    SlotComputes(sem, nodes, r, m0, slots, leaves, op, k);
    FoldStep(sem, nodes, m0, op, leaves, k);
  }

  /** Before the rewriting, the head is the fold of all leaves. */
  ghost predicate HeadFolds<V, M>(sem: Sem<V, M>, nodes: seq<Node>, m0: M, slots: seq<nat>, leaves: seq<Arg>, op: Op) {
    && slots != [] && leaves != [] && slots[|slots| - 1] < |nodes|
    && Val(sem, nodes, m0, slots[|slots| - 1]) == Fold(sem, op, ArgVals(sem, nodes, m0, leaves))
  }

  lemma {:induction false} SameArgs<V(!new), M>(sem: Sem<V, M>, nodes: seq<Node>, r: seq<Node>, m0: M,
                                                slots: seq<nat>, leaves: seq<Arg>, op: Op, x: nat)
    requires Topological(nodes) && Topological(r) && ChainOk(nodes, slots, leaves, op)
    requires Rehung(nodes, r, slots, leaves, |slots|) && HeadFolds(sem, nodes, m0, slots, leaves, op)
    requires x < |nodes| && x !in slots
    ensures r[x] == nodes[x]
    ensures Ops(sem, r, m0, x, |r[x].args|) == Ops(sem, nodes, m0, x, |nodes[x].args|)
    decreases x, 0
  {
    assert slots[..|slots|] == slots;
    assert Backward(nodes, x);
    forall c | 0 <= c < |nodes[x].args|
      ensures Operand(sem, r, m0, x, r[x].args[c]) == Operand(sem, nodes, m0, x, nodes[x].args[c])
    {
      var a := nodes[x].args[c];
      assert a in nodes[x].args;
      if a.ArgNode? {
        SameOutside(sem, nodes, r, m0, slots, leaves, op, a.index);
      }
    }
    SameOps(sem, r, nodes, m0, x, x, |nodes[x].args|);
  }

  lemma {:induction false} SameMem<V(!new), M>(sem: Sem<V, M>, nodes: seq<Node>, r: seq<Node>, m0: M,
                                               slots: seq<nat>, leaves: seq<Arg>, op: Op, x: nat)
    requires Topological(nodes) && Topological(r) && ChainOk(nodes, slots, leaves, op)
    requires Rehung(nodes, r, slots, leaves, |slots|) && HeadFolds(sem, nodes, m0, slots, leaves, op)
    requires x <= |nodes|
    ensures Mem(sem, r, m0, x) == Mem(sem, nodes, m0, x)
    decreases x, 0
  {
    if x > 0 {
      var y := x - 1;
      SameMem(sem, nodes, r, m0, slots, leaves, op, y);
      if y in slots {
        SlotIsPure(nodes, r, slots, leaves, op, y);
      } else {
        SameArgs(sem, nodes, r, m0, slots, leaves, op, y);
      }
      MemStep(sem, nodes, r, m0, y, y);
    }
  }

  lemma SlotIsPure(nodes: seq<Node>, r: seq<Node>, slots: seq<nat>, leaves: seq<Arg>, op: Op, x: nat)
    requires ChainOk(nodes, slots, leaves, op) && Rehung(nodes, r, slots, leaves, |slots|) && x in slots
    ensures x < |nodes| == |r| && r[x].op == nodes[x].op == op
  {
    var k :| 0 <= k < |slots| && slots[k] == x;
    assert r[slots[k]].args == SlotArgs(slots, leaves, k);
  }

  lemma LastOf(slots: seq<nat>, x: nat)
    requires slots != [] && x in slots && x !in slots[..|slots| - 1]
    ensures x == slots[|slots| - 1]
  {
    assert slots == slots[..|slots| - 1] + [slots[|slots| - 1]];
  }

  /** Nodes other than the interior of the chain keep their values. */
  lemma {:induction false} SameOutside<V(!new), M>(sem: Sem<V, M>, nodes: seq<Node>, r: seq<Node>, m0: M,
                                                   slots: seq<nat>, leaves: seq<Arg>, op: Op, x: nat)
    requires Topological(nodes) && Topological(r) && ChainOk(nodes, slots, leaves, op)
    requires Rehung(nodes, r, slots, leaves, |slots|) && HeadFolds(sem, nodes, m0, slots, leaves, op)
    requires x < |nodes| && x !in slots[..|slots| - 1]
    ensures Val(sem, r, m0, x) == Val(sem, nodes, m0, x)
    decreases x, 1
  {
    if x in slots {
      var n := |slots| - 1;
      LastOf(slots, x);
      assert leaves == leaves[..n + 2];
      SlotVal(sem, nodes, r, m0, slots, leaves, op, n, leaves);
    } else {
      SameArgs(sem, nodes, r, m0, slots, leaves, op, x);
      SameMem(sem, nodes, r, m0, slots, leaves, op, x);
    }
  }
}
