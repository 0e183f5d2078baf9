/** Fused regions: a list of operations, each reading earlier ones. */
module FusedTree {

  /** Operation names by class.  Associative vector operations are the ones whose
      lanes come out the same in any association. */
  datatype Op =
    | VecAssoc(name: string)
    | VecPure(name: string)
    | Splat
    | VecLoad(name: string)
    | VecStore(name: string)
    | ScalarPure(name: string)
    | ScalarLoad(name: string)

  datatype Arg =
    | ArgNode(index: nat)
    | ArgPairIn(pair: nat)
    | ArgOther(kind: nat, n: nat, const_: int)

  datatype Node = Node(op: Op, args: seq<Arg>)

  predicate IsScalar(op: Op) {
    op.ScalarPure? || op.ScalarLoad?
  }

  /** The operations whose relative order the scheduler keeps. */
  predicate IsMemOp(op: Op) {
    op.VecLoad? || op.VecStore?
  }

  /** What the operations compute; nothing is known of them but that `VecAssoc`
      operations associate. */
  datatype Sem<!V, !M> = Sem(
    leaf: Arg -> V,
    pure: (Op, seq<V>) -> V,
    load: (Op, seq<V>, M) -> V,
    store: (Op, seq<V>, M) -> M
  )

  ghost predicate Associates<V(!new), M>(sem: Sem<V, M>) {
    forall op: Op, a: V, b: V, c: V :: op.VecAssoc? ==>
      sem.pure(op, [sem.pure(op, [a, b]), c]) == sem.pure(op, [a, sem.pure(op, [b, c])])
  }

  /** Every node argument refers backward. */
  ghost predicate Topological(nodes: seq<Node>) {
    forall i :: 0 <= i < |nodes| ==> Backward(nodes, i)
  }

  ghost predicate Backward(nodes: seq<Node>, i: nat)
    requires i < |nodes|
  {
    forall c :: 0 <= c < |nodes[i].args| && nodes[i].args[c].ArgNode? ==> nodes[i].args[c].index < i
  }

  // ----- evaluation in list order -----

  ghost function Result<V, M>(sem: Sem<V, M>, op: Op, ops: seq<V>, mem: M): V {
    if op.VecLoad? || op.ScalarLoad? then sem.load(op, ops, mem) else sem.pure(op, ops)
  }

  ghost function Effect<V, M>(sem: Sem<V, M>, op: Op, ops: seq<V>, mem: M): M {
    if op.VecStore? then sem.store(op, ops, mem) else mem
  }

  /** The value of node `i` when the list runs from memory `m0`. */
  ghost function Val<V, M>(sem: Sem<V, M>, nodes: seq<Node>, m0: M, i: nat): V
    requires i < |nodes|
    decreases i, 2, 0
  {
    Result(sem, nodes[i].op, Ops(sem, nodes, m0, i, |nodes[i].args|), Mem(sem, nodes, m0, i))
  }

  /** The first `c` operands of node `i`. */
  ghost function Ops<V, M>(sem: Sem<V, M>, nodes: seq<Node>, m0: M, i: nat, c: nat): (r: seq<V>)
    requires i < |nodes| && c <= |nodes[i].args|
    ensures |r| == c
    decreases i, 1, c
  {
    if c == 0 then [] else Ops(sem, nodes, m0, i, c - 1) + [Operand(sem, nodes, m0, i, nodes[i].args[c - 1])]
  }

  ghost function Operand<V, M>(sem: Sem<V, M>, nodes: seq<Node>, m0: M, i: nat, a: Arg): V
    requires i < |nodes|
    decreases i, 0, 0
  {
    if a.ArgNode? && a.index < i then Val(sem, nodes, m0, a.index) else sem.leaf(a)
  }

  /** The memory just before node `i`. */
  ghost function Mem<V, M>(sem: Sem<V, M>, nodes: seq<Node>, m0: M, i: nat): M
    requires i <= |nodes|
    decreases i, 0, 0
  {
    if i == 0 then m0
    else Effect(sem, nodes[i - 1].op, Ops(sem, nodes, m0, i - 1, |nodes[i - 1].args|), Mem(sem, nodes, m0, i - 1))
  }

  lemma {:induction false} SameOps<V, M>(sem: Sem<V, M>, a: seq<Node>, b: seq<Node>, m0: M, i: nat, j: nat, c: nat)
    requires i < |a| && j < |b| && c <= |a[i].args| && c <= |b[j].args|
    requires forall k :: 0 <= k < c ==> Operand(sem, a, m0, i, a[i].args[k]) == Operand(sem, b, m0, j, b[j].args[k])
    ensures Ops(sem, a, m0, i, c) == Ops(sem, b, m0, j, c)
    decreases c
  {
    if c > 0 {
      SameOps(sem, a, b, m0, i, j, c - 1);
    }
  }

  /** Memory only changes at memory operations ... */
  lemma {:induction false} QuietStretch<V, M>(sem: Sem<V, M>, nodes: seq<Node>, m0: M, lo: nat, hi: nat)
    requires lo <= hi <= |nodes| && forall y :: lo <= y < hi ==> !IsMemOp(nodes[y].op)
    ensures Mem(sem, nodes, m0, hi) == Mem(sem, nodes, m0, lo)
  {
    if lo < hi {
      QuietStretch(sem, nodes, m0, lo, hi - 1);
    }
  }

  /** ... and not at all without stores. */
  lemma {:induction false} NoStores<V, M>(sem: Sem<V, M>, nodes: seq<Node>, m0: M, i: nat)
    requires i <= |nodes| && forall y :: 0 <= y < |nodes| ==> !nodes[y].op.VecStore?
    ensures Mem(sem, nodes, m0, i) == m0
  {
    if i > 0 {
      NoStores(sem, nodes, m0, i - 1);
    }
  }

  // ----- reordering -----

  function Remapped(a: Arg, remap: seq<nat>): Arg {
    if a.ArgNode? && a.index < |remap| then ArgNode(remap[a.index]) else a
  }

  /** `b` lists the nodes of `a` in the order `p`, its arguments renumbered by the
      inverse `remap` of `p`. */
  ghost predicate Rearranges(a: seq<Node>, b: seq<Node>, p: seq<nat>, remap: seq<nat>) {
    && |a| == |b| == |p| == |remap|
    && (forall j :: 0 <= j < |p| ==> p[j] < |a| && remap[p[j]] == j)
    && (forall i :: 0 <= i < |a| ==> remap[i] < |a| && p[remap[i]] == i)
    && (forall j :: 0 <= j < |b| ==> b[j].op == a[p[j]].op && |b[j].args| == |a[p[j]].args|)
    && (forall j, c :: 0 <= j < |b| && 0 <= c < |b[j].args| ==> b[j].args[c] == Remapped(a[p[j]].args[c], remap))
  }

  /** Vector loads and stores come in the order of their original positions. */
  ghost predicate KeepsMemOrder(a: seq<Node>, p: seq<nat>) {
    forall j, k ::
      0 <= j < k < |p| && p[j] < |a| && p[k] < |a| && IsMemOp(a[p[j]].op) && IsMemOp(a[p[k]].op) ==> p[j] < p[k]
  }

  /** Scalar loads are not ordered against stores, so a region has only one kind. */
  ghost predicate NoMix(nodes: seq<Node>) {
    || (forall y :: 0 <= y < |nodes| ==> !nodes[y].op.VecStore?)
    || (forall y :: 0 <= y < |nodes| ==> !nodes[y].op.ScalarLoad?)
  }

  /** The memory operations before position `i` of `a` are those before position `j` of `b`. */
  ghost predicate Aligned(a: seq<Node>, remap: seq<nat>, j: nat, i: nat)
    requires |remap| == |a|
  {
    forall y :: 0 <= y < |a| && IsMemOp(a[y].op) ==> (y < i <==> remap[y] < j)
  }

  lemma MemOpAligned(a: seq<Node>, b: seq<Node>, p: seq<nat>, remap: seq<nat>, j: nat)
    requires Rearranges(a, b, p, remap) && KeepsMemOrder(a, p) && j < |a| && IsMemOp(a[p[j]].op)
    ensures Aligned(a, remap, j, p[j])
  {
    forall y | 0 <= y < |a| && IsMemOp(a[y].op)
      ensures y < p[j] <==> remap[y] < j
    {
      assert p[remap[y]] == y;
    }
  }

  /** Between the memory operation at position `j - 1` of `b` and `i` there is none in `a`. */
  lemma LastMemOp(a: seq<Node>, b: seq<Node>, p: seq<nat>, remap: seq<nat>, j: nat, i: nat)
    requires Rearranges(a, b, p, remap) && KeepsMemOrder(a, p) && 0 < j <= |a| && i <= |a|
    requires Aligned(a, remap, j, i) && IsMemOp(a[p[j - 1]].op)
    ensures p[j - 1] < i && forall y :: p[j - 1] + 1 <= y < i ==> !IsMemOp(a[y].op)
  {
    forall y | p[j - 1] + 1 <= y < i
      ensures !IsMemOp(a[y].op)
    {
      assert p[remap[y]] == y;
    }
  }

  lemma NotMemOp(a: seq<Node>, b: seq<Node>, p: seq<nat>, remap: seq<nat>, j: nat, i: nat)
    requires Rearranges(a, b, p, remap) && 0 < j <= |a| && i <= |a|
    requires Aligned(a, remap, j, i) && !IsMemOp(a[p[j - 1]].op)
    ensures Aligned(a, remap, j - 1, i) && !IsMemOp(b[j - 1].op)
  {
    forall y | 0 <= y < |a| && IsMemOp(a[y].op)
      ensures y < i <==> remap[y] < j - 1
    {
      assert p[remap[y]] == y;
    }
  }

  lemma MemStep<V, M>(sem: Sem<V, M>, a: seq<Node>, b: seq<Node>, m0: M, x: nat, y: nat)
    requires x < |a| && y < |b| && a[x].op == b[y].op && Mem(sem, b, m0, y) == Mem(sem, a, m0, x)
    requires a[x].op.VecStore? ==> Ops(sem, b, m0, y, |b[y].args|) == Ops(sem, a, m0, x, |a[x].args|)
    ensures Mem(sem, b, m0, y + 1) == Mem(sem, a, m0, x + 1)
  {
  }

  lemma {:induction false} SameMemory<V, M>(sem: Sem<V, M>, a: seq<Node>, b: seq<Node>, p: seq<nat>, remap: seq<nat>,
                                            m0: M, j: nat, i: nat)
    requires Topological(a) && Topological(b) && Rearranges(a, b, p, remap) && KeepsMemOrder(a, p) && NoMix(a)
    requires j <= |a| && i <= |a| && Aligned(a, remap, j, i)
    ensures Mem(sem, b, m0, j) == Mem(sem, a, m0, i)
    decreases j, 1
  {
    if j == 0 {
      QuietStretch(sem, a, m0, 0, i);
    } else {
      var t := p[j - 1];
      if IsMemOp(a[t].op) {
        MemOpAligned(a, b, p, remap, j - 1);
        SameMemory(sem, a, b, p, remap, m0, j - 1, t);
        SameOperands(sem, a, b, p, remap, m0, j - 1);
        LastMemOp(a, b, p, remap, j, i);
        QuietStretch(sem, a, m0, t + 1, i);
        MemStep(sem, a, b, m0, t, j - 1);
      } else {
        NotMemOp(a, b, p, remap, j, i);
        SameMemory(sem, a, b, p, remap, m0, j - 1, i);
      }
    }
  }

  lemma {:induction false} SameOperands<V, M>(sem: Sem<V, M>, a: seq<Node>, b: seq<Node>, p: seq<nat>, remap: seq<nat>,
                                              m0: M, j: nat)
    requires Topological(a) && Topological(b) && Rearranges(a, b, p, remap) && KeepsMemOrder(a, p) && NoMix(a)
    requires j < |a|
    ensures Ops(sem, b, m0, j, |b[j].args|) == Ops(sem, a, m0, p[j], |a[p[j]].args|)
    decreases j, 0
  {
    var t := p[j];
    assert Backward(a, t) && Backward(b, j);
    forall c | 0 <= c < |b[j].args|
      ensures Operand(sem, b, m0, j, b[j].args[c]) == Operand(sem, a, m0, t, a[t].args[c])
    {
      var x := a[t].args[c];
      assert b[j].args[c] == Remapped(x, remap);
      if x.ArgNode? {
        SameValue(sem, a, b, p, remap, m0, remap[x.index]);
      }
    }
    SameOps(sem, b, a, m0, j, t, |b[j].args|);
  }

  /** A topological rearrangement that keeps the order of the memory operations
      gives every node its value. */
  lemma {:induction false} SameValue<V, M>(sem: Sem<V, M>, a: seq<Node>, b: seq<Node>, p: seq<nat>, remap: seq<nat>,
                                           m0: M, j: nat)
    requires Topological(a) && Topological(b) && Rearranges(a, b, p, remap) && KeepsMemOrder(a, p) && NoMix(a)
    requires j < |a|
    ensures Val(sem, b, m0, j) == Val(sem, a, m0, p[j])
    decreases j, 2
  {
    var t := p[j];
    SameOperands(sem, a, b, p, remap, m0, j);
    if IsMemOp(a[t].op) {
      MemOpAligned(a, b, p, remap, j);
      SameMemory(sem, a, b, p, remap, m0, j, t);
    } else if a[t].op.ScalarLoad? {
      forall y | 0 <= y < |b|
        ensures !b[y].op.VecStore?
      {
      }
      NoStores(sem, a, m0, t);
      NoStores(sem, b, m0, j);
    }
  }

  /** It also leaves memory the same at the end. */
  lemma SameFinalMemory<V, M>(sem: Sem<V, M>, a: seq<Node>, b: seq<Node>, p: seq<nat>, remap: seq<nat>, m0: M)
    requires Topological(a) && Topological(b) && Rearranges(a, b, p, remap) && KeepsMemOrder(a, p) && NoMix(a)
    ensures Mem(sem, b, m0, |b|) == Mem(sem, a, m0, |a|)
  {
    SameMemory(sem, a, b, p, remap, m0, |a|, |a|);
  }

  // ----- stores and scalar loads in one region -----

  /** A store, a scalar load behind it, and a splat of what was loaded ... */
  const Mixed: seq<Node> := [
    Node(VecStore("store"), []), Node(ScalarLoad("load"), []), Node(Splat, [ArgNode(1)])
  ]

  /** ... and the same nodes with the vector node that is no memory operation first, its scalar just before it. */
  const MixedAhead: seq<Node> := [
    Node(ScalarLoad("load"), []), Node(Splat, [ArgNode(0)]), Node(VecStore("store"), [])
  ]

  /** Memory is a number that stores count up and loads read. */
  ghost function Counting(): Sem<int, int> {
    Sem(a => 0, (op, ops: seq<int>) => if ops == [] then 0 else ops[0], (op, ops, m) => m, (op, ops, m) => m + 1)
  }

  lemma MixedTopological()
    ensures Topological(Mixed) && Topological(MixedAhead) && !NoMix(Mixed) && KeepsMemOrder(Mixed, [1, 2, 0])
  {
    assert Mixed[0].op.VecStore? && Mixed[1].op.ScalarLoad?;
  }

  lemma MixedRearranged(a: seq<Node>, b: seq<Node>, p: seq<nat>, remap: seq<nat>)
    requires a == Mixed && b == MixedAhead && p == [1, 2, 0] && remap == [2, 0, 1]
    ensures Rearranges(a, b, p, remap)
  {
    assert b[0].args == a[1].args && b[2].args == a[0].args && a[2].args == [ArgNode(1)] && b[1].args == [ArgNode(0)];
  }

  lemma MixedValue(sem: Sem<int, int>, m0: int)
    requires sem == Counting()
    ensures Val(sem, Mixed, m0, 2) == m0 + 1
  {
    assert Mem(sem, Mixed, m0, 0) == m0 && Mem(sem, Mixed, m0, 1) == m0 + 1;
    assert Val(sem, Mixed, m0, 1) == m0 + 1;
    assert Ops(sem, Mixed, m0, 2, 0) == [] && Ops(sem, Mixed, m0, 2, 1) == [m0 + 1];
  }

  lemma MixedAheadValue(sem: Sem<int, int>, m0: int)
    requires sem == Counting()
    ensures Val(sem, MixedAhead, m0, 1) == m0
  {
    assert Mem(sem, MixedAhead, m0, 0) == m0 && Val(sem, MixedAhead, m0, 0) == m0;
    assert Ops(sem, MixedAhead, m0, 1, 0) == [] && Ops(sem, MixedAhead, m0, 1, 1) == [m0];
  }

  /** Such a rearrangement is topological and keeps the order of the vector memory operations, but the load no
      longer sees the store. */
  lemma MixedLosesValue(m0: int)
    ensures Topological(Mixed) && Topological(MixedAhead) && !NoMix(Mixed)
    ensures Rearranges(Mixed, MixedAhead, [1, 2, 0], [2, 0, 1]) && KeepsMemOrder(Mixed, [1, 2, 0])
    ensures Val(Counting(), Mixed, m0, 2) == m0 + 1 && Val(Counting(), MixedAhead, m0, 1) == m0
  {
    MixedTopological();
    MixedRearranged(Mixed, MixedAhead, [1, 2, 0], [2, 0, 1]);
    MixedValue(Counting(), m0);
    MixedAheadValue(Counting(), m0);
  }
}
