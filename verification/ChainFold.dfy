/** Left-folding the trees of associative operations in a region. */
module ChainFold {
  import opened Basics
  import opened FusedTree
  import opened Reassociate
  import opened ChainRewrite

  /** `b` has the operations and use counts of `a`; only associative nodes were rewired. */
  ghost predicate SameShape(a: seq<Node>, b: seq<Node>) {
    && |a| == |b|
    && (forall x :: 0 <= x < |a| ==> b[x].op == a[x].op && |b[x].args| == |a[x].args|)
    && (forall x :: 0 <= x < |a| && !a[x].op.VecAssoc? ==> b[x] == a[x])
    && (forall i: nat :: Uses(b, i) == Uses(a, i))
  }

  /** Every node outside `moved` has the value it had, and memory evolves as it did. */
  ghost predicate SameMeaning<V, M>(sem: Sem<V, M>, m0: M, a: seq<Node>, b: seq<Node>, moved: set<nat>) {
    && |a| == |b|
    && (forall x {:trigger Val(sem, b, m0, x)} ::
          0 <= x < |a| && x !in moved ==> Val(sem, b, m0, x) == Val(sem, a, m0, x))
    && Mem(sem, b, m0, |b|) == Mem(sem, a, m0, |a|)
  }

  // ----- sorting slots -----

  function Inserted(x: nat, s: seq<nat>): (r: seq<nat>)
    ensures multiset(r) == multiset(s) + multiset{x}
  {
    if s == [] || x <= s[0] then
      [x] + s
    else
      assert s == [s[0]] + s[1..];
      [s[0]] + Inserted(x, s[1..])
  }

  /** The same numbers in non-descending order. */
  function SortInts(s: seq<nat>): (r: seq<nat>)
    ensures multiset(r) == multiset(s)
  {
    if s == [] then []
    else
      assert s == [s[0]] + s[1..];
      Inserted(s[0], SortInts(s[1..]))
  }

  predicate StrictlyAscends(s: seq<nat>) {
    forall i :: 1 <= i < |s| ==> s[i - 1] < s[i]
  }

  lemma {:induction false} AscendsEverywhere(s: seq<nat>)
    requires StrictlyAscends(s)
    ensures Ascending(s)
  {
    if s != [] {
      var n := |s| - 1;
      AscendsEverywhere(s[..n]);
      if n > 0 {
        assert s[n - 1] < s[n];
        forall i | 0 <= i < n
          ensures s[i] < s[n]
        {
          assert s[..n][i] <= s[..n][n - 1];
        }
      }
    }
  }

  // ----- one chain -----

  /** One rewritten chain keeps shape and meaning. */
  lemma ChainStep<V(!new), M>(sem: Sem<V, M>, m0: M, nodes: seq<Node>, r: seq<Node>, consumers: seq<nat>,
                              inner: set<nat>, op: Op, head: nat, slots: seq<nat>, leaves: seq<Arg>)
    requires Topological(nodes) && Counted(nodes, consumers) && head < |nodes| && nodes[head].op == op && op.VecAssoc?
    requires |nodes[head].args| == 2 && Binary(nodes, inner, op) && forall y :: y in inner ==> consumers[y] == 1
    requires Sorted(nodes, inner, op, head, slots) && leaves == ChainLeaves(nodes, inner, op, head)
    requires |leaves| == |slots| + 1 && LeavesFit(slots, leaves) && Associates(sem)
    requires Rehung(nodes, r, slots, leaves, |slots|)
    ensures Topological(r) && SameShape(nodes, r)
    ensures SameMeaning(sem, m0, nodes, r, set i <- ChainInterior(nodes, inner, op, head))
  {
    ChainQualifies(nodes, consumers, inner, op, head, slots, leaves);
    ChainHeadFolds(sem, nodes, m0, inner, op, head, slots, leaves);
    RehungTopological(nodes, r, slots, leaves, op);
    UsesKept(nodes, r, inner, op, head, slots, leaves);
    HeadLast(nodes, inner, op, head, slots);
    RehungShape(nodes, r, slots, leaves, op);
    var interior := ChainInterior(nodes, inner, op, head);
    forall x | 0 <= x < |nodes| && x !in interior
      ensures Val(sem, r, m0, x) == Val(sem, nodes, m0, x)
    {
      SameOutside(sem, nodes, r, m0, slots, leaves, op, x);
    }
    SameMem(sem, nodes, r, m0, slots, leaves, op, |nodes|);
  }

  lemma RehungShape(nodes: seq<Node>, r: seq<Node>, slots: seq<nat>, leaves: seq<Arg>, op: Op)
    requires ChainOk(nodes, slots, leaves, op) && Rehung(nodes, r, slots, leaves, |slots|)
    ensures forall x :: 0 <= x < |nodes| ==> r[x].op == nodes[x].op && |r[x].args| == |nodes[x].args|
    ensures forall x :: 0 <= x < |nodes| && !nodes[x].op.VecAssoc? ==> r[x] == nodes[x]
  {
    assert slots[..|slots|] == slots;
    forall x | 0 <= x < |nodes|
      ensures r[x].op == nodes[x].op && |r[x].args| == |nodes[x].args|
      ensures !nodes[x].op.VecAssoc? ==> r[x] == nodes[x]
    {
      if x in slots {
        var k :| 0 <= k < |slots| && slots[k] == x;
        assert r[slots[k]] == nodes[slots[k]].(args := SlotArgs(slots, leaves, k));
      }
    }
  }

  lemma ShapeTrans(a: seq<Node>, b: seq<Node>, c: seq<Node>)
    requires SameShape(a, b) && SameShape(b, c)
    ensures SameShape(a, c)
  {
  }

  lemma MeaningTrans<V, M>(sem: Sem<V, M>, m0: M, a: seq<Node>, b: seq<Node>, c: seq<Node>, s: set<nat>, t: set<nat>)
    requires SameMeaning(sem, m0, a, b, s) && SameMeaning(sem, m0, b, c, t)
    ensures SameMeaning(sem, m0, a, c, s + t)
  {
    forall x | 0 <= x < |a| && x !in s + t
      ensures Val(sem, c, m0, x) == Val(sem, a, m0, x)
    {
      assert Val(sem, b, m0, x) == Val(sem, a, m0, x);
    }
  }

  lemma FitsAll(slots: seq<nat>, leaves: seq<Arg>)
    requires slots != [] && |leaves| == |slots| + 1
    ensures LeavesFit(slots, leaves) <==>
            forall li :: 0 <= li < |leaves| && leaves[li].ArgNode? ==>
              leaves[li].index < if li >= 2 then slots[li - 1] else slots[0]
  {
    if LeavesFit(slots, leaves) {
      forall li | 0 <= li < |leaves| && leaves[li].ArgNode?
        ensures leaves[li].index < if li >= 2 then slots[li - 1] else slots[0]
      {
        if li > 0 {
          assert leaves[li] == leaves[(li - 1) + 1];
        }
      }
    }
  }

  /** A binary tree has one leaf more than interior nodes. */
  lemma {:induction false} LeafCount(nodes: seq<Node>, inner: set<nat>, op: Op, a: Arg)
    requires Topological(nodes) && Binary(nodes, inner, op)
    ensures |Leaves(nodes, inner, op, a)| == |Interior(nodes, inner, op, a)| + 1
    decreases Height(a)
  {
    if a.ArgNode? && a.index in inner {
      assert Backward(nodes, a.index);
      LeafCount(nodes, inner, op, nodes[a.index].args[0]);
      LeafCount(nodes, inner, op, nodes[a.index].args[1]);
    }
  }

  /** The chain under `head` is rewritten exactly when it has two interior nodes and its
      slots, in index order, each come after the leaf they take. */
  ghost predicate ChainFolded(nodes: seq<Node>, r: seq<Node>, interior: seq<nat>, leaves: seq<Arg>, head: nat,
                              members: set<nat>)
    requires |leaves| == |interior| + 2
  {
    var slots := SortInts(interior + [head]);
    |slots| == |interior| + 1 &&
    if |interior| >= 2 && Ascending(slots) && LeavesFit(slots, leaves) then
      members == (set i <- interior) + {head} && Rehung(nodes, r, slots, leaves, |slots|)
    else
      members == {} && r == nodes
  }

  /** That is what happened to the chain of `head` as gathered from `nodes`. */
  ghost predicate FoldsChain(nodes: seq<Node>, r: seq<Node>, consumers: seq<nat>, rootUse: set<nat>, inChain: seq<bool>,
                             head: nat, members: set<nat>)
    requires Topological(nodes) && |consumers| == |inChain| == |nodes| && head < |nodes| && |nodes[head].args| == 2
  {
    var inner, op := Inner(nodes, consumers, rootUse, inChain, head), nodes[head].op;
    && Binary(nodes, inner, op)
    && |ChainLeaves(nodes, inner, op, head)| == |ChainInterior(nodes, inner, op, head)| + 2
    && ChainFolded(nodes, r, ChainInterior(nodes, inner, op, head), ChainLeaves(nodes, inner, op, head), head, members)
  }

  /** Shape, order and meaning survive; only `moved` nodes, none of them in `kept`, change value. */
  ghost predicate Refolded<V(!new), M>(sem: Sem<V, M>, m0: M, a: seq<Node>, b: seq<Node>, moved: set<nat>,
                                       kept: set<nat>) {
    Topological(b) && SameShape(a, b) && SameMeaning(sem, m0, a, b, moved) && moved !! kept
  }

  lemma NotFolded<V(!new), M>(sem: Sem<V, M>, m0: M, nodes: seq<Node>, kept: set<nat>)
    requires Topological(nodes)
    ensures Refolded(sem, m0, nodes, nodes, {}, kept)
  {
  }

  lemma RefoldedTrans<V(!new), M>(sem: Sem<V, M>, m0: M, a: seq<Node>, b: seq<Node>, c: seq<Node>, s: set<nat>,
                                  t: set<nat>, kept: set<nat>)
    requires Refolded(sem, m0, a, b, s, kept) && Refolded(sem, m0, b, c, t, kept)
    ensures Refolded(sem, m0, a, c, s + t, kept)
  {
    ShapeTrans(a, b, c);
    MeaningTrans(sem, m0, a, b, c, s, t);
  }

  lemma TookKeeps<V(!new), M>(sem: Sem<V, M>, m0: M, nodes: seq<Node>, r: seq<Node>, consumers: seq<nat>,
                              rootUse: set<nat>, inner: set<nat>, op: Op, head: nat, slots: seq<nat>, leaves: seq<Arg>)
    requires Topological(nodes) && Counted(nodes, consumers) && head < |nodes| && nodes[head].op == op && op.VecAssoc?
    requires |nodes[head].args| == 2 && Binary(nodes, inner, op) && inner !! rootUse
    requires (forall y :: y in inner ==> consumers[y] == 1) && Sorted(nodes, inner, op, head, slots)
    requires leaves == ChainLeaves(nodes, inner, op, head) && |leaves| == |slots| + 1 && LeavesFit(slots, leaves)
    requires Associates(sem) && Rehung(nodes, r, slots, leaves, |slots|)
    ensures Refolded(sem, m0, nodes, r, (set i <- ChainInterior(nodes, inner, op, head)), rootUse)
  {
    InteriorBelow(nodes, inner, op, head);
    ChainStep(sem, m0, nodes, r, consumers, inner, op, head, slots, leaves);
  }

  lemma WithoutHead(interior: seq<nat>, head: nat)
    requires head !in interior
    ensures (set i <- interior) + {head} - {head} == set i <- interior
  {
  }

  /** A folded chain keeps shape, order and meaning outside its interior. */
  lemma FoldKeeps<V(!new), M>(sem: Sem<V, M>, m0: M, nodes: seq<Node>, r: seq<Node>, consumers: seq<nat>,
                              rootUse: set<nat>, inChain: seq<bool>, head: nat, members: set<nat>)
    requires Topological(nodes) && |inChain| == |nodes| && head < |nodes| && |nodes[head].args| == 2
    requires Counted(nodes, consumers) && Associates(sem) && nodes[head].op.VecAssoc?
    requires FoldsChain(nodes, r, consumers, rootUse, inChain, head, members)
    ensures Refolded(sem, m0, nodes, r, members - {head}, rootUse)
  {
    var inner, op := Inner(nodes, consumers, rootUse, inChain, head), nodes[head].op;
    if r == nodes && members == {} {
      NotFolded(sem, m0, nodes, rootUse);
    } else {
      var slots := SortInts(ChainInterior(nodes, inner, op, head) + [head]);
      InteriorBelow(nodes, inner, op, head);
      WithoutHead(ChainInterior(nodes, inner, op, head), head);
      TookKeeps(sem, m0, nodes, r, consumers, rootUse, inner, op, head, slots, ChainLeaves(nodes, inner, op, head));
    }
  }

  // ----- all chains -----

  /** The nodes that may lie inside the tree of `h`: its operation, two arguments, read once, no root. */
  ghost function TreeNodes(a: seq<Node>, roots: set<nat>, h: nat): set<nat>
    requires h < |a|
  {
    set i | 0 <= i < |a| && i != h && a[i].op == a[h].op && |a[i].args| == 2 && Uses(a, i) == 1 && i !in roots
  }

  ghost predicate IsHead(a: seq<Node>, h: nat) {
    h < |a| && a[h].op.VecAssoc? && |a[h].args| == 2
  }

  /** The interior of the tree under `h`, and its leaves in walk order. */
  ghost function Tree(a: seq<Node>, roots: set<nat>, h: nat): seq<nat>
    requires Topological(a) && IsHead(a, h)
  {
    ChainInterior(a, TreeNodes(a, roots, h), a[h].op, h)
  }

  ghost function TreeLeaves(a: seq<Node>, roots: set<nat>, h: nat): (r: seq<Arg>)
    requires Topological(a) && IsHead(a, h)
    ensures |r| == |Tree(a, roots, h)| + 2
  {
    LeafCount(a, TreeNodes(a, roots, h), a[h].op, a[h].args[0]);
    LeafCount(a, TreeNodes(a, roots, h), a[h].op, a[h].args[1]);
    ChainLeaves(a, TreeNodes(a, roots, h), a[h].op, h)
  }

  ghost function TreeSlots(a: seq<Node>, roots: set<nat>, h: nat): (r: seq<nat>)
    requires Topological(a) && IsHead(a, h)
    ensures |r| == |Tree(a, roots, h)| + 1 && forall x :: x in r <==> x == h || x in Tree(a, roots, h)
  {
    SameMembers(SortInts(Tree(a, roots, h) + [h]), Tree(a, roots, h) + [h]);
    SortedLength(Tree(a, roots, h) + [h]);
    SortInts(Tree(a, roots, h) + [h])
  }

  lemma SortedLength(s: seq<nat>)
    ensures |SortInts(s)| == |s|
  {
    assert |multiset(SortInts(s))| == |multiset(s)|;
  }

  /** The tree of `h` is large enough, and every leaf comes before the slot that takes it. */
  ghost predicate Foldable(a: seq<Node>, roots: set<nat>, h: nat)
    requires Topological(a)
  {
    && IsHead(a, h) && |Tree(a, roots, h)| >= 2 && Ascending(TreeSlots(a, roots, h))
    && LeavesFit(TreeSlots(a, roots, h), TreeLeaves(a, roots, h))
  }

  /** `x` is an interior node of the tree of one of `heads`. */
  ghost predicate Inside(a: seq<Node>, roots: set<nat>, heads: set<nat>, x: nat)
    requires Topological(a)
  {
    exists h :: h in heads && InTree(a, roots, h, x)
  }

  ghost predicate InTree(a: seq<Node>, roots: set<nat>, h: nat, x: nat)
    requires Topological(a)
  {
    IsHead(a, h) && x in Tree(a, roots, h)
  }

  ghost function Interiors(a: seq<Node>, roots: set<nat>, heads: set<nat>): set<nat>
    requires Topological(a)
  {
    set x | 0 <= x < |a| && Inside(a, roots, heads, x)
  }

  /** Of the nodes from `from` on, `heads` are those that are foldable and not inside the tree of another. */
  ghost predicate Chosen(a: seq<Node>, roots: set<nat>, heads: set<nat>, from: nat)
    requires Topological(a)
  {
    && (forall h :: h in heads ==> from <= h < |a|)
    && (forall h :: from <= h < |a| ==> (h in heads <==> Foldable(a, roots, h) && !Inside(a, roots, heads, h)))
  }

  /** In `b` the tree of `h` is the left fold of its leaves. */
  ghost predicate TreeFolded(a: seq<Node>, b: seq<Node>, roots: set<nat>, h: nat)
    requires Topological(a)
  {
    && IsHead(a, h) && |b| == |a|
    && var slots, leaves := TreeSlots(a, roots, h), TreeLeaves(a, roots, h);
    forall k {:trigger SlotArgs(slots, leaves, k)} :: 0 <= k < |slots| ==>
      slots[k] < |a| && b[slots[k]] == a[slots[k]].(args := SlotArgs(slots, leaves, k))
  }

  /** The trees of `heads` are folded, and nothing else has changed. */
  ghost predicate AllFolded(a: seq<Node>, b: seq<Node>, roots: set<nat>, heads: set<nat>)
    requires Topological(a)
  {
    && |b| == |a|
    && (forall h {:trigger TreeFolded(a, b, roots, h)} :: h in heads ==> TreeFolded(a, b, roots, h))
    && (forall x :: 0 <= x < |a| && x !in heads && !Inside(a, roots, heads, x) ==> b[x] == a[x])
  }

  /** The heads from `from` on have been looked at; `inChain` marks the nodes of folded trees. */
  ghost predicate Folding(a: seq<Node>, b: seq<Node>, consumers: seq<nat>, roots: set<nat>, inChain: seq<bool>,
                          heads: set<nat>, from: nat) {
    && Topological(a) && Topological(b) && SameShape(a, b) && Counted(a, consumers) && |inChain| == |a|
    && Chosen(a, roots, heads, from) && AllFolded(a, b, roots, heads)
    && (forall x :: 0 <= x < |a| ==> (inChain[x] <==> x in heads || Inside(a, roots, heads, x)))
  }

  /** The interior of a tree lies below its head. */
  lemma TreeBelow(a: seq<Node>, roots: set<nat>, h: nat)
    requires Topological(a) && IsHead(a, h)
    ensures forall x :: x in Tree(a, roots, h) ==> x < h && x in TreeNodes(a, roots, h)
  {
    InteriorBelow(a, TreeNodes(a, roots, h), a[h].op, h);
  }

  /** What reads the inside of a folded tree belongs to it. */
  lemma UserMarked(a: seq<Node>, consumers: seq<nat>, roots: set<nat>, heads: set<nat>, y: nat, i: nat)
    requires Topological(a) && Counted(a, consumers) && y < |a| && ArgNode(i) in a[y].args
    requires Inside(a, roots, heads, i)
    ensures y in heads || Inside(a, roots, heads, y)
  {
    var g :| g in heads && InTree(a, roots, g, i);
    InteriorUsedInside(a, consumers, TreeNodes(a, roots, g), a[g].op, g, y, i);
    if y != g {
      assert InTree(a, roots, g, y);
    }
  }

  /** Nodes that read only each other and are in `b` as they are in `a`. */
  ghost predicate Untouched(a: seq<Node>, b: seq<Node>, rest: set<nat>) {
    && |b| == |a| && (forall y :: y in rest ==> y < |a| && b[y] == a[y])
    && (forall y, arg :: y in rest && arg in a[y].args && arg.ArgNode? ==> arg.index in rest)
  }

  ghost function Fresh(inChain: seq<bool>, n: nat): set<nat> {
    set x | 0 <= x < n && x < |inChain| && !inChain[x]
  }

  /** What is outside the folded trees reads nothing inside. */
  lemma FreshUntouched(a: seq<Node>, b: seq<Node>, consumers: seq<nat>, roots: set<nat>, inChain: seq<bool>,
                       heads: set<nat>, from: nat)
    requires Folding(a, b, consumers, roots, inChain, heads, from)
    ensures Untouched(a, b, Fresh(inChain, from))
  {
    forall y, arg | y in Fresh(inChain, from) && arg in a[y].args && arg.ArgNode?
      ensures arg.index in Fresh(inChain, from)
    {
      assert Backward(a, y);
      if Inside(a, roots, heads, arg.index) {
        UserMarked(a, consumers, roots, heads, y, arg.index);
      }
    }
  }

  /** So a walk from there finds what it finds in the region as it was. */
  lemma {:induction false} SameWalk(a: seq<Node>, b: seq<Node>, inner: set<nat>, inner': set<nat>, op: Op,
                                    rest: set<nat>, arg: Arg)
    requires Topological(a) && Topological(b) && Binary(a, inner, op) && Binary(b, inner', op)
    requires Untouched(a, b, rest) && (forall i :: i in rest ==> (i in inner <==> i in inner'))
    requires arg.ArgNode? ==> arg.index in rest
    ensures Interior(b, inner', op, arg) == Interior(a, inner, op, arg)
    ensures Leaves(b, inner', op, arg) == Leaves(a, inner, op, arg)
    ensures forall x :: x in Interior(a, inner, op, arg) ==> x in rest
    decreases Height(arg)
  {
    if arg.ArgNode? && arg.index in inner {
      var args := a[arg.index].args;
      assert Backward(a, arg.index) && args[0] in args && args[1] in args;
      SameWalk(a, b, inner, inner', op, rest, args[0]);
      SameWalk(a, b, inner, inner', op, rest, args[1]);
    }
  }

  /** What the walk under the next head gathers is its tree in the region as it was. */
  lemma SameTree(a: seq<Node>, b: seq<Node>, consumers: seq<nat>, roots: set<nat>, inChain: seq<bool>,
                 heads: set<nat>, h: nat)
    requires Folding(a, b, consumers, roots, inChain, heads, h + 1) && IsHead(a, h) && !inChain[h]
    ensures IsHead(b, h)
    ensures var inner := Inner(b, consumers, roots, inChain, h);
            && ChainInterior(b, inner, b[h].op, h) == Tree(a, roots, h)
            && ChainLeaves(b, inner, b[h].op, h) == TreeLeaves(a, roots, h)
    ensures forall x :: x in TreeSlots(a, roots, h) ==> x < |a| && !inChain[x] && b[x] == a[x]
  {
    FreshUntouched(a, b, consumers, roots, inChain, heads, h + 1);
    SameNodes(a, b, consumers, roots, inChain, h);
    SameChain(a, b, TreeNodes(a, roots, h), Inner(b, consumers, roots, inChain, h), Fresh(inChain, h + 1), h);
  }

  lemma SameChain(a: seq<Node>, b: seq<Node>, inner: set<nat>, inner': set<nat>, rest: set<nat>, h: nat)
    requires Topological(a) && Topological(b) && IsHead(a, h) && h in rest && Untouched(a, b, rest)
    requires Binary(a, inner, a[h].op) && Binary(b, inner', a[h].op)
    requires forall i :: i in rest ==> (i in inner <==> i in inner')
    ensures b[h] == a[h]
    ensures ChainInterior(b, inner', a[h].op, h) == ChainInterior(a, inner, a[h].op, h)
    ensures ChainLeaves(b, inner', a[h].op, h) == ChainLeaves(a, inner, a[h].op, h)
    ensures forall x :: x in ChainInterior(a, inner, a[h].op, h) ==> x in rest
  {
    assert a[h].args[0] in a[h].args && a[h].args[1] in a[h].args;
    SameWalk(a, b, inner, inner', a[h].op, rest, a[h].args[0]);
    SameWalk(a, b, inner, inner', a[h].op, rest, a[h].args[1]);
  }

  lemma SameNodes(a: seq<Node>, b: seq<Node>, consumers: seq<nat>, roots: set<nat>, inChain: seq<bool>, h: nat)
    requires Counted(a, consumers) && SameShape(a, b) && |inChain| == |a| && h < |a|
    ensures forall i :: i in Fresh(inChain, h + 1) ==>
              (i in TreeNodes(a, roots, h) <==> i in Inner(b, consumers, roots, inChain, h))
  {
  }

  /** A head that is no head of a tree, or lies inside a folded one, is passed over. */
  lemma PassOver(a: seq<Node>, b: seq<Node>, consumers: seq<nat>, roots: set<nat>, inChain: seq<bool>,
                 heads: set<nat>, h: nat)
    requires Folding(a, b, consumers, roots, inChain, heads, h + 1) && h < |a|
    requires Foldable(a, roots, h) ==> inChain[h]
    ensures Folding(a, b, consumers, roots, inChain, heads, h)
  {
  }

  lemma InsideGrows(a: seq<Node>, roots: set<nat>, heads: set<nat>, h: nat)
    requires Topological(a) && IsHead(a, h)
    ensures forall x :: Inside(a, roots, heads + {h}, x) <==> Inside(a, roots, heads, x) || x in Tree(a, roots, h)
  {
    forall x
      ensures Inside(a, roots, heads + {h}, x) <==> Inside(a, roots, heads, x) || x in Tree(a, roots, h)
    {
      if x in Tree(a, roots, h) {
        assert InTree(a, roots, h, x);
      }
    }
  }

  /** Choosing the next head. */
  lemma ChooseNext(a: seq<Node>, roots: set<nat>, heads: set<nat>, h: nat)
    requires Topological(a) && Chosen(a, roots, heads, h + 1) && Foldable(a, roots, h) && !Inside(a, roots, heads, h)
    ensures Chosen(a, roots, heads + {h}, h)
  {
    InsideGrows(a, roots, heads, h);
    TreeBelow(a, roots, h);
  }

  /** Folding its tree. */
  lemma FoldedNext(a: seq<Node>, b: seq<Node>, r: seq<Node>, roots: set<nat>, inChain: seq<bool>, heads: set<nat>,
                   h: nat)
    requires Topological(a) && IsHead(a, h) && AllFolded(a, b, roots, heads) && |inChain| == |a|
    requires forall x :: 0 <= x < |a| && (x in heads || Inside(a, roots, heads, x)) ==> inChain[x]
    requires forall x :: x in TreeSlots(a, roots, h) ==> x < |a| && !inChain[x] && b[x] == a[x]
    requires Rehung(b, r, TreeSlots(a, roots, h), TreeLeaves(a, roots, h), |TreeSlots(a, roots, h)|)
    ensures AllFolded(a, r, roots, heads + {h})
  {
    var slots := TreeSlots(a, roots, h);
    assert slots[..|slots|] == slots;
    forall g | g in heads
      ensures TreeFolded(a, r, roots, g)
    {
      assert TreeFolded(a, b, roots, g);
      OtherTree(a, b, r, roots, heads, inChain, g);
    }
    OwnTree(a, b, r, roots, h);
    RestKept(a, b, r, roots, heads, h);
  }

  lemma RestKept(a: seq<Node>, b: seq<Node>, r: seq<Node>, roots: set<nat>, heads: set<nat>, h: nat)
    requires Topological(a) && IsHead(a, h) && |b| == |r| == |a|
    requires forall x :: 0 <= x < |a| && x !in heads && !Inside(a, roots, heads, x) ==> b[x] == a[x]
    requires forall x :: 0 <= x < |a| && x !in TreeSlots(a, roots, h) ==> r[x] == b[x]
    ensures forall x :: 0 <= x < |a| && x !in heads + {h} && !Inside(a, roots, heads + {h}, x) ==> r[x] == a[x]
  {
    InsideGrows(a, roots, heads, h);
  }

  lemma OwnTree(a: seq<Node>, b: seq<Node>, r: seq<Node>, roots: set<nat>, h: nat)
    requires Topological(a) && IsHead(a, h) && |b| == |a|
    requires forall x :: x in TreeSlots(a, roots, h) ==> x < |a| && b[x] == a[x]
    requires Rehung(b, r, TreeSlots(a, roots, h), TreeLeaves(a, roots, h), |TreeSlots(a, roots, h)|)
    ensures TreeFolded(a, r, roots, h)
  {
    var slots, leaves := TreeSlots(a, roots, h), TreeLeaves(a, roots, h);
    forall k | 0 <= k < |slots|
      ensures slots[k] < |a| && r[slots[k]] == a[slots[k]].(args := SlotArgs(slots, leaves, k))
    {
      assert slots[k] in slots;
      assert r[slots[k]] == b[slots[k]].(args := SlotArgs(slots, leaves, k));
    }
  }

  /** The trees folded before are left alone. */
  lemma OtherTree(a: seq<Node>, b: seq<Node>, r: seq<Node>, roots: set<nat>, heads: set<nat>, inChain: seq<bool>,
                  g: nat)
    requires Topological(a) && IsHead(a, g) && |r| == |b| == |a| == |inChain| && g in heads
             && TreeFolded(a, b, roots, g)
    requires forall x :: 0 <= x < |a| && (x in heads || Inside(a, roots, heads, x)) ==> inChain[x]
    requires forall x :: 0 <= x < |a| && inChain[x] ==> r[x] == b[x]
    ensures TreeFolded(a, r, roots, g)
  {
    var own := TreeSlots(a, roots, g);
    forall k | 0 <= k < |own|
      ensures own[k] < |a| && r[own[k]] == b[own[k]]
    {
      assert own[k] in own;
      TreeBelow(a, roots, g);
      assert own[k] == g || InTree(a, roots, g, own[k]);
    }
  }

  /** The next head is foldable: its tree was folded. */
  lemma TookTree(a: seq<Node>, b: seq<Node>, r: seq<Node>, consumers: seq<nat>, roots: set<nat>, inChain: seq<bool>,
                 inChain': seq<bool>, heads: set<nat>, h: nat, members: set<nat>)
    requires Folding(a, b, consumers, roots, inChain, heads, h + 1) && Foldable(a, roots, h) && !inChain[h]
    requires Rehung(b, r, TreeSlots(a, roots, h), TreeLeaves(a, roots, h), |TreeSlots(a, roots, h)|)
    requires Topological(r) && SameShape(a, r) && members == (set i <- Tree(a, roots, h)) + {h} && |inChain'| == |a|
    requires forall x :: 0 <= x < |a| ==> (inChain'[x] <==> inChain[x] || x in members)
    requires forall x :: x in TreeSlots(a, roots, h) ==> x < |a| && !inChain[x] && b[x] == a[x]
    ensures Folding(a, r, consumers, roots, inChain', heads + {h}, h)
    ensures Interiors(a, roots, heads + {h}) == Interiors(a, roots, heads) + (members - {h})
  {
    InsideGrows(a, roots, heads, h);
    ChooseNext(a, roots, heads, h);
    FoldedNext(a, b, r, roots, inChain, heads, h);
    TreeBelow(a, roots, h);
  }

  /** What folding did to the tree of the next head, said of the region as it was. */
  lemma FoldsTree(a: seq<Node>, b: seq<Node>, r: seq<Node>, consumers: seq<nat>, roots: set<nat>, inChain: seq<bool>,
                  inChain': seq<bool>, heads: set<nat>, h: nat, members: set<nat>)
    requires Folding(a, b, consumers, roots, inChain, heads, h + 1) && IsHead(a, h) && !inChain[h]
    requires IsHead(b, h) && FoldsChain(b, r, consumers, roots, inChain, h, members)
    requires Topological(r) && SameShape(a, r) && |inChain'| == |a|
    requires forall x :: 0 <= x < |a| ==> (inChain'[x] <==> inChain[x] || x in members)
    ensures var heads' := NextHeads(a, roots, heads, h);
            && Folding(a, r, consumers, roots, inChain', heads', h)
            && Interiors(a, roots, heads') == Interiors(a, roots, heads) + (members - {h})
  {
    SameTree(a, b, consumers, roots, inChain, heads, h);
    if Foldable(a, roots, h) {
      TookTree(a, b, r, consumers, roots, inChain, inChain', heads, h, members);
    } else {
      PassOver(a, b, consumers, roots, inChain, heads, h);
      assert inChain' == inChain;
    }
  }

  /** The heads chosen so far, after `h` was looked at. */
  ghost function NextHeads(a: seq<Node>, roots: set<nat>, heads: set<nat>, h: nat): set<nat>
    requires Topological(a)
  {
    if Foldable(a, roots, h) then heads + {h} else heads
  }

  /** What is known of the region between two heads. */
  datatype Part = Structure | Meaning

  ghost predicate Holds<V(!new), M>(sem: Sem<V, M>, m0: M, a: seq<Node>, b: seq<Node>, consumers: seq<nat>,
                                    roots: set<nat>, inChain: seq<bool>, heads: set<nat>, from: nat, part: Part) {
    match part
    case Structure => Folding(a, b, consumers, roots, inChain, heads, from)
    case Meaning => Topological(a) && Refolded(sem, m0, a, b, Interiors(a, roots, heads), roots)
  }

  /** The heads from `from` on are folded, and outside the folded trees everything is as it was. */
  ghost predicate Refolding<V(!new), M>(sem: Sem<V, M>, m0: M, a: seq<Node>, b: seq<Node>, consumers: seq<nat>,
                                        roots: set<nat>, inChain: seq<bool>, heads: set<nat>, from: nat) {
    && Topological(b) && Counted(b, consumers) && |inChain| == |b| == |a|
    && forall part {:trigger Holds(sem, m0, a, b, consumers, roots, inChain, heads, from, part)} ::
         Holds(sem, m0, a, b, consumers, roots, inChain, heads, from, part)
  }

  lemma StartRefolding<V(!new), M>(sem: Sem<V, M>, m0: M, a: seq<Node>, consumers: seq<nat>, roots: set<nat>,
                                   inChain: seq<bool>)
    requires Topological(a) && Counted(a, consumers) && |inChain| == |a| && forall x :: 0 <= x < |a| ==> !inChain[x]
    ensures Refolding(sem, m0, a, a, consumers, roots, inChain, {}, |a|)
  {
    NotFolded(sem, m0, a, roots);
    assert Interiors(a, roots, {}) == {};
    forall part
      ensures Holds(sem, m0, a, a, consumers, roots, inChain, {}, |a|, part)
    {
    }
  }

  lemma RefoldPass<V(!new), M>(sem: Sem<V, M>, m0: M, a: seq<Node>, b: seq<Node>, consumers: seq<nat>,
                               roots: set<nat>, inChain: seq<bool>, heads: set<nat>, h: nat)
    requires Refolding(sem, m0, a, b, consumers, roots, inChain, heads, h + 1) && h < |a|
    requires !IsHead(b, h) || inChain[h]
    ensures Refolding(sem, m0, a, b, consumers, roots, inChain, heads, h)
  {
    assert Holds(sem, m0, a, b, consumers, roots, inChain, heads, h + 1, Structure);
    PassOver(a, b, consumers, roots, inChain, heads, h);
    forall part
      ensures Holds(sem, m0, a, b, consumers, roots, inChain, heads, h, part)
    {
      assert Holds(sem, m0, a, b, consumers, roots, inChain, heads, h + 1, part);
    }
  }

  lemma RefoldNext<V(!new), M>(sem: Sem<V, M>, m0: M, a: seq<Node>, b: seq<Node>, r: seq<Node>, consumers: seq<nat>,
                               roots: set<nat>, inChain: seq<bool>, inChain': seq<bool>, heads: set<nat>, h: nat,
                               members: set<nat>)
    requires Refolding(sem, m0, a, b, consumers, roots, inChain, heads, h + 1) && Associates(sem)
    requires IsHead(b, h) && !inChain[h] && |inChain'| == |a|
    requires FoldsChain(b, r, consumers, roots, inChain, h, members)
    requires forall x :: 0 <= x < |a| ==> (inChain'[x] <==> inChain[x] || x in members)
    requires Topological(a)
    ensures Refolding(sem, m0, a, r, consumers, roots, inChain', NextHeads(a, roots, heads, h), h)
  {
    assert Holds(sem, m0, a, b, consumers, roots, inChain, heads, h + 1, Structure);
    assert Holds(sem, m0, a, b, consumers, roots, inChain, heads, h + 1, Meaning);
    FoldKeeps(sem, m0, b, r, consumers, roots, inChain, h, members);
    RefoldedTrans(sem, m0, a, b, r, Interiors(a, roots, heads), members - {h}, roots);
    FoldsTree(a, b, r, consumers, roots, inChain, inChain', heads, h, members);
    forall part
      ensures Holds(sem, m0, a, r, consumers, roots, inChain', NextHeads(a, roots, heads, h), h, part)
    {
    }
  }

  /** All trees are folded: the heads are those that are foldable and not inside a folded tree, only the folded
      trees have changed, and only their interiors, which hold no head and no root, changed value. */
  ghost predicate Reassociated<V(!new), M>(sem: Sem<V, M>, m0: M, a: seq<Node>, b: seq<Node>, roots: set<nat>,
                                           heads: set<nat>) {
    && Topological(a) && Topological(b) && SameShape(a, b) && Chosen(a, roots, heads, 0)
    && AllFolded(a, b, roots, heads)
    && SameMeaning(sem, m0, a, b, Interiors(a, roots, heads)) && Interiors(a, roots, heads) !! roots + heads
  }

  lemma EndRefolding<V(!new), M>(sem: Sem<V, M>, m0: M, a: seq<Node>, b: seq<Node>, consumers: seq<nat>,
                                 roots: set<nat>, inChain: seq<bool>, heads: set<nat>)
    requires Refolding(sem, m0, a, b, consumers, roots, inChain, heads, 0)
    ensures Reassociated(sem, m0, a, b, roots, heads)
  {
    assert Holds(sem, m0, a, b, consumers, roots, inChain, heads, 0, Structure);
    assert Holds(sem, m0, a, b, consumers, roots, inChain, heads, 0, Meaning);
    ChosenOutside(a, roots, heads);
  }

  /** The chosen heads lie inside no folded tree, and neither does a root. */
  lemma ChosenOutside(a: seq<Node>, roots: set<nat>, heads: set<nat>)
    requires Topological(a) && Chosen(a, roots, heads, 0)
    ensures Interiors(a, roots, heads) !! roots + heads
  {
    forall x, h | h in heads && InTree(a, roots, h, x)
      ensures x !in roots
    {
      TreeBelow(a, roots, h);
    }
  }
}
