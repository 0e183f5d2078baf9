/** Rewriting one chain: when its slots qualify, and what it does to use counts. */
module ChainRewrite {
  import opened Basics
  import opened FusedTree
  import opened Reassociate

  // ----- use counts along a list of nodes -----

  /** How many arguments of the listed nodes name node `i`. */
  ghost function SumNames(nodes: seq<Node>, s: seq<nat>, i: nat): nat {
    if s == [] then 0 else SumNames(nodes, s[..|s| - 1], i) + NamesAt(nodes, s[|s| - 1], i)
  }

  ghost function NamesAt(nodes: seq<Node>, x: nat, i: nat): nat {
    if x < |nodes| then Names(nodes[x], i) else 0
  }

  lemma SumNamesOne(nodes: seq<Node>, x: nat, i: nat)
    ensures SumNames(nodes, [x], i) == NamesAt(nodes, x, i)
  {
    assert [x][..0] == [];
  }

  lemma {:induction false} SumNamesConcat(nodes: seq<Node>, s: seq<nat>, t: seq<nat>, i: nat)
    ensures SumNames(nodes, s + t, i) == SumNames(nodes, s, i) + SumNames(nodes, t, i)
  {
    if t == [] {
      assert s + t == s;
    } else {
      var n := |t| - 1;
      assert (s + t)[..|s| + n] == s + t[..n];
      SumNamesConcat(nodes, s, t[..n], i);
    }
  }

  lemma SumNamesWithout(nodes: seq<Node>, t: seq<nat>, j: nat, i: nat)
    requires j < |t|
    ensures SumNames(nodes, t, i) == SumNames(nodes, t[..j] + t[j + 1..], i) + NamesAt(nodes, t[j], i)
  {
    assert t == t[..j] + [t[j]] + t[j + 1..];
    SumNamesConcat(nodes, t[..j], t[j + 1..], i);
    SumNamesConcat(nodes, t[..j] + [t[j]], t[j + 1..], i);
    SumNamesConcat(nodes, t[..j], [t[j]], i);
    SumNamesOne(nodes, t[j], i);
  }

  lemma MultisetWithout<T>(t: seq<T>, j: nat)
    requires j < |t|
    ensures multiset(t[..j] + t[j + 1..]) == multiset(t) - multiset{t[j]}
  {
    assert t == t[..j] + [t[j]] + t[j + 1..];
  }

  lemma {:induction false} SumNamesPermuted(nodes: seq<Node>, s: seq<nat>, t: seq<nat>, i: nat)
    requires multiset(s) == multiset(t)
    ensures SumNames(nodes, s, i) == SumNames(nodes, t, i)
  {
    if s != [] {
      var n := |s| - 1;
      assert s[n] in multiset(s) && s[n] in multiset(t);
      var j :| 0 <= j < |t| && t[j] == s[n];
      MultisetWithout(s, n);
      MultisetWithout(t, j);
      SumNamesPermuted(nodes, s[..n] + s[n + 1..], t[..j] + t[j + 1..], i);
      SumNamesWithout(nodes, s, n, i);
      SumNamesWithout(nodes, t, j, i);
    } else {
      assert |multiset(t)| == 0;
    }
  }

  /** Under argument `a` every interior node and every leaf is used once more than its
      occurrences there, except `a` itself. */
  lemma {:induction false} TreeUses(nodes: seq<Node>, inner: set<nat>, op: Op, a: Arg, i: nat)
    requires Topological(nodes) && Binary(nodes, inner, op)
    ensures SumNames(nodes, Interior(nodes, inner, op, a), i) + One(a == ArgNode(i))
            == Times(Leaves(nodes, inner, op, a), ArgNode(i)) + Times(Interior(nodes, inner, op, a), i)
    decreases Height(a)
  {
    if a.ArgNode? && a.index in inner {
      var x := a.index;
      assert Backward(nodes, x);
      var a0, a1 := nodes[x].args[0], nodes[x].args[1];
      var s0, s1 := Interior(nodes, inner, op, a0), Interior(nodes, inner, op, a1);
      TreeUses(nodes, inner, op, a0, i);
      TreeUses(nodes, inner, op, a1, i);
      SumNamesConcat(nodes, [x] + s0, s1, i);
      SumNamesConcat(nodes, [x], s0, i);
      SumNamesOne(nodes, x, i);
      PairNames(nodes[x], i);
    }
  }

  lemma PairNames(nd: Node, i: nat)
    requires |nd.args| == 2
    ensures Names(nd, i) == One(nd.args[0] == ArgNode(i)) + One(nd.args[1] == ArgNode(i))
  {
    assert nd.args == [nd.args[0], nd.args[1]];
  }

  /** The same for the whole chain, head included. */
  lemma ChainUses(nodes: seq<Node>, inner: set<nat>, op: Op, head: nat, i: nat)
    requires Topological(nodes) && Binary(nodes, inner, op) && head < |nodes| && |nodes[head].args| == 2
    ensures SumNames(nodes, ChainInterior(nodes, inner, op, head) + [head], i)
            == Times(ChainLeaves(nodes, inner, op, head), ArgNode(i)) + Times(ChainInterior(nodes, inner, op, head), i)
  {
    var a0, a1 := nodes[head].args[0], nodes[head].args[1];
    var s0, s1 := Interior(nodes, inner, op, a0), Interior(nodes, inner, op, a1);
    TreeUses(nodes, inner, op, a0, i);
    TreeUses(nodes, inner, op, a1, i);
    SumNamesConcat(nodes, s0, s1, i);
    SumNamesConcat(nodes, s0 + s1, [head], i);
    SumNamesOne(nodes, head, i);
    PairNames(nodes[head], i);
  }

  ghost function ChainInterior(nodes: seq<Node>, inner: set<nat>, op: Op, head: nat): seq<nat>
    requires Topological(nodes) && Binary(nodes, inner, op) && head < |nodes| && |nodes[head].args| == 2
  {
    Interior(nodes, inner, op, nodes[head].args[0]) + Interior(nodes, inner, op, nodes[head].args[1])
  }

  ghost function ChainLeaves(nodes: seq<Node>, inner: set<nat>, op: Op, head: nat): seq<Arg>
    requires Topological(nodes) && Binary(nodes, inner, op) && head < |nodes| && |nodes[head].args| == 2
  {
    Leaves(nodes, inner, op, nodes[head].args[0]) + Leaves(nodes, inner, op, nodes[head].args[1])
  }

  // ----- rewriting slot by slot -----

  /** Rewriting one more slot. */
  lemma RehungStep(nodes: seq<Node>, r: seq<Node>, slots: seq<nat>, leaves: seq<Arg>, k: nat)
    requires k < |slots| && |leaves| == |slots| + 1 && Ascending(slots) && Rehung(nodes, r, slots, leaves, k)
    ensures slots[k] < |r| && r[slots[k]] == nodes[slots[k]]
    ensures Rehung(nodes, r[slots[k] := r[slots[k]].(args := SlotArgs(slots, leaves, k))], slots, leaves, k + 1)
  {
    assert slots[..k + 1] == slots[..k] + [slots[k]];
    assert slots[k] !in slots[..k];
  }

  lemma RehungBack(nodes: seq<Node>, r: seq<Node>, slots: seq<nat>, leaves: seq<Arg>, k: nat) returns (prev: seq<Node>)
    requires k < |slots| && |leaves| == |slots| + 1 && Ascending(slots) && Rehung(nodes, r, slots, leaves, k + 1)
    ensures Rehung(nodes, prev, slots, leaves, k)
    ensures slots[k] < |nodes| == |r| && r[slots[k]].args == SlotArgs(slots, leaves, k)
    ensures prev[slots[k]] == nodes[slots[k]] && r == prev[slots[k] := r[slots[k]]]
  {
    var x := slots[k];
    prev := r[x := nodes[x]];
    assert slots[..k + 1] == slots[..k] + [x];
    forall j | 0 <= j < k
      ensures prev[slots[j]] == nodes[slots[j]].(args := SlotArgs(slots, leaves, j))
    {
      assert slots[j] < slots[k];
      assert SlotArgs(slots, leaves, j) == SlotArgs(slots, leaves, j);
    }
    assert r[x] == nodes[x].(args := SlotArgs(slots, leaves, k));
  }

  /** What the first `k` rewritten slots use: the leaves they take, and each other. */
  ghost function Taken(slots: seq<nat>, leaves: seq<Arg>, k: nat, i: nat): nat
    requires k <= |slots| && |leaves| == |slots| + 1
  {
    if k == 0 then 0 else Times(leaves[..k + 1], ArgNode(i)) + Times(slots[..k - 1], i)
  }

  lemma TimesLast<T>(s: seq<T>, k: nat, x: T)
    requires k < |s|
    ensures Times(s[..k + 1], x) == Times(s[..k], x) + One(s[k] == x)
  {
    assert s[..k + 1] == s[..k] + [s[k]];
  }

  lemma TakenStep(slots: seq<nat>, leaves: seq<Arg>, k: nat, i: nat, nd: Node)
    requires k < |slots| && |leaves| == |slots| + 1 && nd.args == SlotArgs(slots, leaves, k)
    ensures Taken(slots, leaves, k + 1, i) == Taken(slots, leaves, k, i) + Names(nd, i)
  {
    PairNames(nd, i);
    TimesLast(leaves, k + 1, ArgNode(i));
    if k == 0 {
      TimesLast(leaves, 0, ArgNode(i));
    } else {
      TimesLast(slots, k - 1, i);
    }
  }

  lemma {:induction false} RehungUses(nodes: seq<Node>, r: seq<Node>, slots: seq<nat>, leaves: seq<Arg>, k: nat, i: nat)
    requires k <= |slots| && |leaves| == |slots| + 1 && Ascending(slots) && Rehung(nodes, r, slots, leaves, k)
    ensures Uses(r, i) + SumNames(nodes, slots[..k], i) == Uses(nodes, i) + Taken(slots, leaves, k, i)
    decreases k
  {
    if k == 0 {
      assert r == nodes;
    } else {
      var x := slots[k - 1];
      var prev := RehungBack(nodes, r, slots, leaves, k - 1);
      RehungUses(nodes, prev, slots, leaves, k - 1, i);
      UsesUpdate(prev, x, r[x], i);
      assert slots[..k][..k - 1] == slots[..k - 1];
      TakenStep(slots, leaves, k - 1, i, r[x]);
    }
  }

  lemma UseKept(nodes: seq<Node>, r: seq<Node>, slots: seq<nat>, leaves: seq<Arg>, interior: seq<nat>, head: nat,
                i: nat)
    requires |leaves| == |slots| + 1 && Ascending(slots) && Rehung(nodes, r, slots, leaves, |slots|) && slots != []
    requires multiset(slots) == multiset(interior + [head])
    requires multiset(slots[..|slots| - 1]) == multiset(interior)
    requires SumNames(nodes, interior + [head], i) == Times(leaves, ArgNode(i)) + Times(interior, i)
    ensures Uses(r, i) == Uses(nodes, i)
  {
    SumNamesPermuted(nodes, interior + [head], slots, i);
    RehungUses(nodes, r, slots, leaves, |slots|, i);
    assert slots[..|slots|] == slots && leaves[..|slots| + 1] == leaves;
  }

  /** A rewritten chain leaves every use count alone. */
  lemma UsesKept(nodes: seq<Node>, r: seq<Node>, inner: set<nat>, op: Op, head: nat, slots: seq<nat>, leaves: seq<Arg>)
    requires Topological(nodes) && Binary(nodes, inner, op) && head < |nodes| && |nodes[head].args| == 2
    requires Sorted(nodes, inner, op, head, slots) && leaves == ChainLeaves(nodes, inner, op, head)
             && |leaves| == |slots| + 1
    requires Rehung(nodes, r, slots, leaves, |slots|)
    ensures forall i: nat :: Uses(r, i) == Uses(nodes, i)
  {
    var interior := ChainInterior(nodes, inner, op, head);
    HeadLast(nodes, inner, op, head, slots);
    forall i: nat
      ensures Uses(r, i) == Uses(nodes, i)
    {
      ChainUses(nodes, inner, op, head, i);
      UseKept(nodes, r, slots, leaves, interior, head, i);
    }
  }

  /** `slots` are the interior nodes and the head, in strictly ascending order. */
  ghost predicate Sorted(nodes: seq<Node>, inner: set<nat>, op: Op, head: nat, slots: seq<nat>)
    requires Topological(nodes) && Binary(nodes, inner, op) && head < |nodes| && |nodes[head].args| == 2
  {
    Ascending(slots) && multiset(slots) == multiset(ChainInterior(nodes, inner, op, head) + [head])
  }

  lemma InteriorBelow(nodes: seq<Node>, inner: set<nat>, op: Op, head: nat)
    requires Topological(nodes) && Binary(nodes, inner, op) && head < |nodes| && |nodes[head].args| == 2
    ensures forall x :: x in ChainInterior(nodes, inner, op, head) ==> x in inner && x < head
  {
    assert Backward(nodes, head);
    LeavesOutside(nodes, inner, op, nodes[head].args[0]);
    LeavesOutside(nodes, inner, op, nodes[head].args[1]);
  }

  lemma HeadLast(nodes: seq<Node>, inner: set<nat>, op: Op, head: nat, slots: seq<nat>)
    requires Topological(nodes) && Binary(nodes, inner, op) && head < |nodes| && |nodes[head].args| == 2
    requires Sorted(nodes, inner, op, head, slots)
    ensures slots != [] && slots[|slots| - 1] == head
    ensures multiset(slots[..|slots| - 1]) == multiset(ChainInterior(nodes, inner, op, head))
    ensures |slots| == |ChainInterior(nodes, inner, op, head)| + 1
    ensures forall x :: x in slots[..|slots| - 1] <==> x in ChainInterior(nodes, inner, op, head)
  {
    InteriorBelow(nodes, inner, op, head);
    LargestLast(slots, ChainInterior(nodes, inner, op, head), head);
  }

  lemma LargestLast(slots: seq<nat>, rest: seq<nat>, head: nat)
    requires Ascending(slots) && multiset(slots) == multiset(rest + [head]) && forall x :: x in rest ==> x < head
    ensures |slots| == |rest| + 1 && slots[|rest|] == head
    ensures multiset(slots[..|rest|]) == multiset(rest)
    ensures forall x :: x in slots[..|rest|] <==> x in rest
  {
    assert |multiset(slots)| == |multiset(rest + [head])|;
    var n := |rest|;
    assert slots[n] == head by {
      assert head in multiset(slots);
      var k :| 0 <= k < |slots| && slots[k] == head;
      assert slots[n] in multiset(slots);
      assert slots[n] in rest + [head];
    }
    MultisetWithout(slots, n);
    MultisetWithout(rest + [head], n);
    assert slots[..n] + slots[n + 1..] == slots[..n];
    assert (rest + [head])[..n] + (rest + [head])[n + 1..] == rest;
    SameMembers(slots[..n], rest);
  }

  lemma SameMembers(s: seq<nat>, t: seq<nat>)
    requires multiset(s) == multiset(t)
    ensures forall x :: x in s <==> x in t
  {
    assert forall x :: x in s <==> x in multiset(s);
    assert forall x :: x in t <==> x in multiset(t);
  }

  // ----- the chain of a head qualifies -----

  /** Use counts that were right when the counting was done. */
  ghost predicate Counted(nodes: seq<Node>, consumers: seq<nat>) {
    |consumers| == |nodes| && forall i: nat :: i < |nodes| ==> consumers[i] == Uses(nodes, i)
  }

  lemma InnerIsBinary(nodes: seq<Node>, consumers: seq<nat>, roots: set<nat>, inChain: seq<bool>, head: nat)
    requires |consumers| == |inChain| == |nodes| && head < |nodes|
    ensures Binary(nodes, Inner(nodes, consumers, roots, inChain, head), nodes[head].op)
  {
  }

  /** Only chain members use an interior node. */
  lemma InteriorUsedInside(nodes: seq<Node>, consumers: seq<nat>, inner: set<nat>, op: Op, head: nat, x: nat, i: nat)
    requires Topological(nodes) && Binary(nodes, inner, op) && head < |nodes| && |nodes[head].args| == 2
    requires Counted(nodes, consumers) && forall y :: y in inner ==> consumers[y] == 1
    requires x < |nodes| && ArgNode(i) in nodes[x].args && i in ChainInterior(nodes, inner, op, head)
    ensures x == head || x in ChainInterior(nodes, inner, op, head)
  {
    var interior := ChainInterior(nodes, inner, op, head);
    var c := if i in Interior(nodes, inner, op, nodes[head].args[0]) then 0 else 1;
    var a := nodes[head].args[c];
    InteriorBelow(nodes, inner, op, head);
    InteriorUser(nodes, inner, op, a, i);
    var y := head;
    if a != ArgNode(i) {
      y :| y in Interior(nodes, inner, op, a) && y < |nodes| && ArgNode(i) in nodes[y].args;
      assert y in interior;
    }
    if x < y {
      OneUser(nodes, x, y, i);
    } else if y < x {
      OneUser(nodes, y, x, i);
    }
  }

  lemma LeavesNotInterior(nodes: seq<Node>, inner: set<nat>, op: Op, head: nat)
    requires Topological(nodes) && Binary(nodes, inner, op) && head < |nodes| && |nodes[head].args| == 2
    ensures forall l :: l in ChainLeaves(nodes, inner, op, head) ==> !(l.ArgNode? && l.index in inner)
  {
    LeavesOutside(nodes, inner, op, nodes[head].args[0]);
    LeavesOutside(nodes, inner, op, nodes[head].args[1]);
  }

  lemma SlotsBinary(nodes: seq<Node>, inner: set<nat>, op: Op, head: nat, slots: seq<nat>)
    requires Topological(nodes) && Binary(nodes, inner, op) && head < |nodes| && |nodes[head].args| == 2
    requires nodes[head].op == op && Sorted(nodes, inner, op, head, slots)
    ensures forall k ::
              0 <= k < |slots| ==> slots[k] < |nodes| && nodes[slots[k]].op == op && |nodes[slots[k]].args| == 2
  {
    SameMembers(slots, ChainInterior(nodes, inner, op, head) + [head]);
    InteriorBelow(nodes, inner, op, head);
    forall k | 0 <= k < |slots|
      ensures slots[k] < |nodes| && nodes[slots[k]].op == op && |nodes[slots[k]].args| == 2
    {
      assert slots[k] in slots;
    }
  }

  lemma ChainQualifies(nodes: seq<Node>, consumers: seq<nat>, inner: set<nat>, op: Op, head: nat,
                       slots: seq<nat>, leaves: seq<Arg>)
    requires Topological(nodes) && Counted(nodes, consumers) && head < |nodes| && nodes[head].op == op && op.VecAssoc?
    requires |nodes[head].args| == 2 && Binary(nodes, inner, op) && forall y :: y in inner ==> consumers[y] == 1
    requires Sorted(nodes, inner, op, head, slots) && leaves == ChainLeaves(nodes, inner, op, head)
    requires |leaves| == |slots| + 1 && LeavesFit(slots, leaves)
    ensures ChainOk(nodes, slots, leaves, op)
  {
    var n := |slots| - 1;
    HeadLast(nodes, inner, op, head, slots);
    SlotsBinary(nodes, inner, op, head, slots);
    LeavesNotInterior(nodes, inner, op, head);
    InteriorBelow(nodes, inner, op, head);
    assert slots == slots[..n] + [head];
    forall x, i | 0 <= x < |nodes| && x !in slots && ArgNode(i) in nodes[x].args
      ensures i !in slots[..n]
    {
      if i in slots[..n] {
        InteriorUsedInside(nodes, consumers, inner, op, head, x, i);
      }
    }
  }

  lemma ChainHeadFolds<V(!new), M>(sem: Sem<V, M>, nodes: seq<Node>, m0: M, inner: set<nat>, op: Op, head: nat,
                                   slots: seq<nat>, leaves: seq<Arg>)
    requires Topological(nodes) && Binary(nodes, inner, op) && head < |nodes| && |nodes[head].args| == 2
    requires Associates(sem) && op.VecAssoc? && nodes[head].op == op
    requires Sorted(nodes, inner, op, head, slots) && leaves == ChainLeaves(nodes, inner, op, head)
             && |leaves| == |slots| + 1
    ensures HeadFolds(sem, nodes, m0, slots, leaves, op)
  {
    var a0, a1 := nodes[head].args[0], nodes[head].args[1];
    TreeVal(sem, nodes, m0, inner, op, a0);
    TreeVal(sem, nodes, m0, inner, op, a1);
    var l0, l1 := Leaves(nodes, inner, op, a0), Leaves(nodes, inner, op, a1);
    ArgValsConcat(sem, nodes, m0, l0, l1);
    FoldConcat(sem, op, ArgVals(sem, nodes, m0, l0), ArgVals(sem, nodes, m0, l1));
    BinaryVal(sem, nodes, m0, head);
    HeadLast(nodes, inner, op, head, slots);
  }
}
