/** The builder of fused regions: chain reassociation and scheduling. */
module SimdFuse {
  import opened Basics
  import opened FusedTree
  import opened Reassociate
  import opened ChainRewrite
  import opened ChainFold
  import opened ScheduleOrder
  import opened ScalarSplice
  import opened ListSchedule
  import opened SplatSink

  /** The sorted slots of a chain, if every leaf comes before the slot that takes it. */
  method Slots(interior: seq<nat>, head: nat, leaves: seq<Arg>) returns (slots: seq<nat>, valid: bool)
    requires |leaves| == |interior| + 2
    ensures multiset(slots) == multiset(interior + [head]) && |leaves| == |slots| + 1
    ensures slots == SortInts(interior + [head])
    ensures valid <==> Ascending(slots) && LeavesFit(slots, leaves)
  {
    slots := SortInts(interior + [head]);
    assert |slots| == |multiset(slots)| == |multiset(interior + [head])|;
    valid := forall li :: 0 <= li < |leaves| && leaves[li].ArgNode? ==>
               leaves[li].index < if li >= 2 then slots[li - 1] else slots[0];
    FitsAll(slots, leaves);
    valid := valid && StrictlyAscends(slots);
    if StrictlyAscends(slots) {
      AscendsEverywhere(slots);
    }
  }

  lemma InteriorPair(nodes: seq<Node>, inner: set<nat>, op: Op, i: nat, interior: seq<nat>, leaves: seq<Arg>)
    requires Topological(nodes) && Binary(nodes, inner, op) && i in inner
    ensures interior + [i] + Interior(nodes, inner, op, nodes[i].args[0]) + Interior(nodes, inner, op, nodes[i].args[1])
            == interior + Interior(nodes, inner, op, ArgNode(i))
    ensures leaves + Leaves(nodes, inner, op, nodes[i].args[0]) + Leaves(nodes, inner, op, nodes[i].args[1])
            == leaves + Leaves(nodes, inner, op, ArgNode(i))
  {
    assert Backward(nodes, i);
  }

  /** Rewiring associative nodes leaves scalar nodes and their uses alone. */
  lemma ShapeKeepsScalars(a: seq<Node>, b: seq<Node>)
    requires SameShape(a, b) && ScalarsUsed(a) && ScalarsFeedForward(a)
    ensures ScalarsUsed(b) && ScalarsFeedForward(b)
    ensures NoMix(a) ==> NoMix(b)
    ensures forall p :: KeepsMemOrder(b, p) ==> KeepsMemOrder(a, p)
  {
    forall i: nat | Scalar(b, i)
      ensures Uses(b, i) >= 1
    {
      assert Scalar(a, i);
    }
  }

  /** Through both passes, roots keep their values and memory its final state. */
  lemma RootsKept<V(!new), M>(sem: Sem<V, M>, m0: M, a: seq<Node>, mid: seq<Node>, b: seq<Node>, p: seq<nat>,
                              remap: seq<nat>, heads: set<nat>, roots: seq<nat>)
    requires Reassociated(sem, m0, a, mid, (set r <- roots), heads) && Topological(b) && Rearranges(mid, b, p, remap)
    requires KeepsMemOrder(mid, p) && NoMix(mid) && forall i :: 0 <= i < |roots| ==> roots[i] < |a|
    ensures Mem(sem, b, m0, |b|) == Mem(sem, a, m0, |a|)
    ensures forall i :: 0 <= i < |roots| ==> Val(sem, b, m0, remap[roots[i]]) == Val(sem, a, m0, roots[i])
  {
    SameFinalMemory(sem, mid, b, p, remap, m0);
    forall i | 0 <= i < |roots|
      ensures Val(sem, b, m0, remap[roots[i]]) == Val(sem, a, m0, roots[i])
    {
      assert roots[i] in set r <- roots;
      ValueKept(sem, m0, a, mid, b, p, remap, Interiors(a, (set r <- roots), heads), roots[i]);
    }
  }

  /** A node that reassociation leaves alone keeps its value through both passes. */
  lemma ValueKept<V, M>(sem: Sem<V, M>, m0: M, a: seq<Node>, mid: seq<Node>, b: seq<Node>, p: seq<nat>, remap: seq<nat>,
                        moved: set<nat>, x: nat)
    requires Topological(mid) && Topological(b) && Rearranges(mid, b, p, remap) && KeepsMemOrder(mid, p) && NoMix(mid)
    requires SameMeaning(sem, m0, a, mid, moved) && x < |a| && x !in moved
    ensures Val(sem, b, m0, remap[x]) == Val(sem, a, m0, x)
  {
    SameValue(sem, mid, b, p, remap, m0, remap[x]);
    assert p[remap[x]] == x;
  }

  /** Counting argument by argument. */
  ghost function NamesUpTo(nd: Node, c: nat, i: nat): nat
    requires c <= |nd.args|
  {
    multiset(nd.args[..c])[ArgNode(i)]
  }

  lemma CountOneMore(nodes: seq<Node>, k: nat, c: nat, i: nat)
    requires k < |nodes| && c < |nodes[k].args|
    ensures NamesUpTo(nodes[k], c + 1, i) == NamesUpTo(nodes[k], c, i) + One(nodes[k].args[c] == ArgNode(i))
  {
    assert nodes[k].args[..c + 1] == nodes[k].args[..c] + [nodes[k].args[c]];
  }

  lemma CountNode(nodes: seq<Node>, k: nat)
    requires k < |nodes|
    ensures forall i: nat :: Uses(nodes[..k + 1], i) == Uses(nodes[..k], i) + NamesUpTo(nodes[k], |nodes[k].args|, i)
  {
    assert nodes[..k + 1][..k] == nodes[..k];
    assert nodes[k].args[..|nodes[k].args|] == nodes[k].args;
  }

  /** `p` is the schedule of the nodes: the best node first, then splats sunk to their uses, then each scalar glued
      to the first vector node that needs it. */
  ghost predicate ScheduledBy(nodes: seq<Node>, roots: seq<nat>, walked: seq<nat>, sunk: seq<nat>, p: seq<nat>) {
    && BestFirst(nodes, walked) && (forall v: nat :: v < |nodes| ==> (v in walked <==> !Scalar(nodes, v)))
    && SplatsSunk(nodes, walked, sunk, roots) && Vectors(nodes, p) == sunk && Glued(nodes, p)
  }

  ghost predicate IsSchedule(nodes: seq<Node>, roots: seq<nat>, p: seq<nat>) {
    exists walked, sunk :: ScheduledBy(nodes, roots, walked, sunk, p)
  }

  class FusedTreeBuilder {
    var nodes: seq<Node>
    /** The SSA value each node stands for, by its identifier. */
    var nodeVals: seq<nat>

    /** How many arguments name each node. */
    method CountConsumers() returns (consumers: seq<nat>)
      requires Topological(nodes)
      ensures Counted(nodes, consumers)
    {
      consumers := seq(|nodes|, _ => 0);
      for k := 0 to |nodes|
        invariant |consumers| == |nodes|
        invariant forall i: nat :: i < |nodes| ==> consumers[i] == Uses(nodes[..k], i)
      {
        var args := nodes[k].args;
        assert Backward(nodes, k);
        for c := 0 to |args|
          invariant |consumers| == |nodes|
          invariant forall i: nat :: i < |nodes| ==> consumers[i] == Uses(nodes[..k], i) + NamesUpTo(nodes[k], c, i)
        {
          forall i: nat
            ensures NamesUpTo(nodes[k], c + 1, i) == NamesUpTo(nodes[k], c, i) + One(args[c] == ArgNode(i))
          {
            CountOneMore(nodes, k, c, i);
          }
          if args[c].ArgNode? {
            consumers := consumers[args[c].index := consumers[args[c].index] + 1];
          }
        }
        CountNode(nodes, k);
      }
      assert nodes[..|nodes|] == nodes;
    }

    /** Gathers the interior nodes and leaves under argument `a`, in walk order. */
    method Collect(a: Arg, head: nat, consumers: seq<nat>, rootUse: set<nat>, inChain: seq<bool>,
                   interior: seq<nat>, leaves: seq<Arg>, ghost inner: set<nat>, ghost op: Op)
      returns (interior': seq<nat>, leaves': seq<Arg>)
      requires Topological(nodes) && |consumers| == |inChain| == |nodes| && head < |nodes| && Height(a) <= |nodes|
      requires forall i: nat :: i in inner <==> i < |nodes| && Qualifies(nodes, consumers, rootUse, inChain, head, i)
      requires Binary(nodes, inner, op)
      ensures interior' == interior + Interior(nodes, inner, op, a)
      ensures leaves' == leaves + Leaves(nodes, inner, op, a)
      decreases Height(a)
    {
      if a.ArgNode? {
        var i := a.index;
        if Qualifies(nodes, consumers, rootUse, inChain, head, i) {
          assert Backward(nodes, i) && i in inner;
          var a0, a1 := nodes[i].args[0], nodes[i].args[1];
          interior', leaves' := Collect(a0, head, consumers, rootUse, inChain, interior + [i], leaves, inner, op);
          interior', leaves' := Collect(a1, head, consumers, rootUse, inChain, interior', leaves', inner, op);
          InteriorPair(nodes, inner, op, i, interior, leaves);
          return;
        }
      }
      interior', leaves' := interior, leaves + [a];
    }

    /** Gives every slot its new arguments. */
    method Rehang(slots: seq<nat>, leaves: seq<Arg>)
      requires slots != [] && |leaves| == |slots| + 1 && Ascending(slots)
               && forall k :: 0 <= k < |slots| ==> slots[k] < |nodes|
      modifies this`nodes
      ensures Rehung(old(nodes), nodes, slots, leaves, |slots|)
    {
      RehungStep(nodes, nodes, slots, leaves, 0);
      nodes := nodes[slots[0] := nodes[slots[0]].(args := [leaves[0], leaves[1]])];
      for i := 1 to |slots|
        invariant Rehung(old(nodes), nodes, slots, leaves, i)
      {
        RehungStep(old(nodes), nodes, slots, leaves, i);
        nodes := nodes[slots[i] := nodes[slots[i]].(args := [ArgNode(slots[i - 1]), leaves[i + 1]])];
      }
    }

    /** Interior nodes and leaves under the two arguments of `head`. */
    method CollectChain(head: nat, consumers: seq<nat>, rootUse: set<nat>, inChain: seq<bool>, ghost inner: set<nat>,
                        ghost op: Op)
      returns (interior: seq<nat>, leaves: seq<Arg>)
      requires Topological(nodes) && |consumers| == |inChain| == |nodes| && head < |nodes| && |nodes[head].args| == 2
      requires forall i: nat :: i in inner <==> i < |nodes| && Qualifies(nodes, consumers, rootUse, inChain, head, i)
      requires Binary(nodes, inner, op)
      ensures interior == ChainInterior(nodes, inner, op, head)
      ensures leaves == ChainLeaves(nodes, inner, op, head) && |leaves| == |interior| + 2
    {
      assert Backward(nodes, head);
      interior, leaves := Collect(nodes[head].args[0], head, consumers, rootUse, inChain, [], [], inner, op);
      interior, leaves := Collect(nodes[head].args[1], head, consumers, rootUse, inChain, interior, leaves, inner, op);
      LeafCount(nodes, inner, op, nodes[head].args[0]);
      LeafCount(nodes, inner, op, nodes[head].args[1]);
    }

    /** Left-folds the tree under `head` if its slots take the leaves in order. */
    method FoldChain(head: nat, consumers: seq<nat>, rootUse: set<nat>, inChain: seq<bool>) returns (members: set<nat>)
      requires Topological(nodes) && |consumers| == |inChain| == |nodes| && head < |nodes| && |nodes[head].args| == 2
      modifies this`nodes
      ensures FoldsChain(old(nodes), nodes, consumers, rootUse, inChain, head, members)
    {
      members := {};
      ghost var op := nodes[head].op;
      InnerIsBinary(nodes, consumers, rootUse, inChain, head);
      ghost var inner := Inner(nodes, consumers, rootUse, inChain, head);
      var interior, leaves := CollectChain(head, consumers, rootUse, inChain, inner, op);
      var slots, valid := Slots(interior, head, leaves);
      if |interior| < 2 || |leaves| != |interior| + 2 || !valid {
        return;
      }
      SlotsBinary(nodes, inner, op, head, slots);
      Rehang(slots, leaves);
      members := (set i <- interior) + {head};
    }

    /** Left-folds the trees of associative operations, the last head first. */
    method ReassociateChains<V(!new), M>(roots: seq<nat>, ghost sem: Sem<V, M>, ghost m0: M)
      returns (ghost heads: set<nat>)
      requires Topological(nodes) && Associates(sem)
      modifies this`nodes
      ensures Reassociated(sem, m0, old(nodes), nodes, (set r <- roots), heads)
    {
      heads := {};
      var consumers := CountConsumers();
      var rootUse := set r <- roots;
      var inChain := seq(|nodes|, _ => false);
      StartRefolding(sem, m0, nodes, consumers, rootUse, inChain);
      for head := |nodes| downto 0
        invariant Refolding(sem, m0, old(nodes), nodes, consumers, rootUse, inChain, heads, head)
      {
        if !nodes[head].op.VecAssoc? || inChain[head] || |nodes[head].args| != 2 {
          RefoldPass(sem, m0, old(nodes), nodes, consumers, rootUse, inChain, heads, head);
          continue;
        }
        inChain := FoldHead(head, consumers, rootUse, inChain, sem, m0, old(nodes), heads);
        heads := NextHeads(old(nodes), rootUse, heads, head);
      }
      EndRefolding(sem, m0, old(nodes), nodes, consumers, rootUse, inChain, heads);
    }

    /** Folds the tree under the next head, if it can be folded, and marks its nodes. */
    method FoldHead<V(!new), M>(head: nat, consumers: seq<nat>, rootUse: set<nat>, inChain: seq<bool>,
                                ghost sem: Sem<V, M>, ghost m0: M, ghost a: seq<Node>, ghost heads: set<nat>)
      returns (inChain': seq<bool>)
      requires Refolding(sem, m0, a, nodes, consumers, rootUse, inChain, heads, head + 1)
      requires Topological(a) && Associates(sem) && IsHead(nodes, head) && !inChain[head]
      modifies this`nodes
      ensures Refolding(sem, m0, a, nodes, consumers, rootUse, inChain', NextHeads(a, rootUse, heads, head), head)
    {
      ghost var before := nodes;
      var members := FoldChain(head, consumers, rootUse, inChain);
      inChain' := seq(|inChain|, x requires 0 <= x < |inChain| => inChain[x] || x in members);
      RefoldNext(sem, m0, a, before, nodes, consumers, rootUse, inChain, inChain', heads, head, members);
    }

    /** Reassociates, then reorders the region to shorten lifetimes.  `mid` is the region after
        reassociation and `p` the new order: position `j` holds what was node `p[j]`. */
    method ScheduleNodes<V(!new), M>(roots: seq<nat>, ghost sem: Sem<V, M>, ghost m0: M)
      returns (newRoots: seq<nat>, ghost mid: seq<Node>, ghost p: seq<nat>, ghost remap: seq<nat>)
      requires Topological(nodes) && ScalarsUsed(nodes) && ScalarsFeedForward(nodes) && |nodeVals| == |nodes|
      requires Associates(sem) && forall i :: 0 <= i < |roots| ==> roots[i] < |nodes|
      modifies this
      ensures Topological(nodes) && SameShape(old(nodes), mid) && Rearranges(mid, nodes, p, remap)
      ensures KeepsMemOrder(old(nodes), p) && IsSchedule(mid, roots, p)
      ensures |newRoots| == |roots| && forall i :: 0 <= i < |roots| ==> newRoots[i] == remap[roots[i]]
      ensures |nodeVals| == |nodes| && forall j :: 0 <= j < |nodes| ==> nodeVals[j] == old(nodeVals)[p[j]]
      ensures NoMix(old(nodes)) ==>
                Mem(sem, nodes, m0, |nodes|) == Mem(sem, old(nodes), m0, |old(nodes)|)
                && forall i ::
                     0 <= i < |roots| ==> Val(sem, nodes, m0, newRoots[i]) == Val(sem, old(nodes), m0, roots[i])
    {
      ghost var heads := ReassociateChains(roots, sem, m0);
      mid := nodes;
      ShapeKeepsScalars(old(nodes), mid);
      newRoots, p, remap := Reorder(roots);
      if NoMix(old(nodes)) {
        RootsKept(sem, m0, old(nodes), mid, nodes, p, remap, heads, roots);
      }
    }

    /** Puts the nodes in the order of the schedule. */
    method Reorder(roots: seq<nat>) returns (newRoots: seq<nat>, ghost p: seq<nat>, ghost remap: seq<nat>)
      requires Topological(nodes) && ScalarsUsed(nodes) && ScalarsFeedForward(nodes) && |nodeVals| == |nodes|
      requires forall i :: 0 <= i < |roots| ==> roots[i] < |nodes|
      modifies this
      ensures Topological(nodes) && Rearranges(old(nodes), nodes, p, remap) && KeepsMemOrder(old(nodes), p)
      ensures IsSchedule(old(nodes), roots, p)
      ensures |newRoots| == |roots| && forall i :: 0 <= i < |roots| ==> newRoots[i] == remap[roots[i]]
      ensures |nodeVals| == |nodes| && forall j :: 0 <= j < |nodes| ==> nodeVals[j] == old(nodeVals)[p[j]]
    {
      var scheduled := ScheduleOnly(roots);
      var renumber;
      nodes, renumber := Renumber(nodes, scheduled);
      var vals := nodeVals;
      nodeVals := seq(|scheduled|, j requires 0 <= j < |scheduled| => vals[scheduled[j]]);
      newRoots := seq(|roots|, i requires 0 <= i < |roots| => renumber[roots[i]]);
      p, remap := scheduled, renumber;
    }

    /** The schedule of the current nodes, scalar chains included. */
    method ScheduleOnly(roots: seq<nat>) returns (scheduled: seq<nat>)
      requires Topological(nodes) && ScalarsUsed(nodes) && ScalarsFeedForward(nodes)
      ensures Ordered(nodes, scheduled, true) && MemAscends(nodes, scheduled)
      ensures |scheduled| == |nodes| && forall i: nat :: i < |nodes| ==> i in scheduled
      ensures forall j :: 0 <= j < |scheduled| ==> scheduled[j] < |nodes|
      ensures IsSchedule(nodes, roots, scheduled)
    {
      var nScalar;
      scheduled, nScalar := Walk(nodes);
      ghost var walked := scheduled;
      scheduled := SinkSplats(nodes, scheduled, roots);
      SameMembers(walked, scheduled);
      ghost var sunk := scheduled;
      if nScalar > 0 {
        scheduled := Splice(nodes, scheduled);
      } else {
        NothingToSplice(nodes, scheduled);
      }
      assert ScheduledBy(nodes, roots, walked, sunk, scheduled);
      AllOnce(nodes, scheduled);
      OrderedRange(nodes, scheduled, true);
    }
  }
}
