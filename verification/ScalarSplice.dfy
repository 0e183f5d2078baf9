/** Splicing scalar chains back in, and renumbering. */
module ScalarSplice {
  import opened Basics
  import opened FusedTree
  import opened Reassociate
  import opened ScheduleOrder

  /** Each scheduled node behind the scalar nodes it is fed by. */
  function Flat(feeds: seq<seq<nat>>, s: seq<nat>): seq<nat> {
    if s == [] then []
    else
      var v := s[|s| - 1];
      Flat(feeds, s[..|s| - 1]) + (if v < |feeds| then feeds[v] else []) + [v]
  }

  lemma {:induction false} FlatSame(feeds: seq<seq<nat>>, other: seq<seq<nat>>, s: seq<nat>, v: nat, f: seq<nat>)
    requires v < |feeds| && v !in s && other == feeds[v := f]
    ensures Flat(other, s) == Flat(feeds, s)
  {
    if s != [] {
      FlatSame(feeds, other, s[..|s| - 1], v, f);
    }
  }

  /** The scalar nodes placed are those listed and those being placed. */
  ghost predicate PlacedIs(nodes: seq<Node>, placed: seq<bool>, list: seq<nat>, open: set<nat>) {
    && |placed| == |nodes|
    && (forall x: nat :: Scalar(nodes, x) ==> (placed[x] <==> x in list || x in open))
    && (forall x :: x in open ==> x !in list && Scalar(nodes, x))
  }

  ghost predicate AllScalar(nodes: seq<Node>, feeds: seq<seq<nat>>) {
    forall v, x :: 0 <= v < |feeds| && x in feeds[v] ==> Scalar(nodes, x)
  }

  /** `y` reads scalar `x`, directly or through scalars. */
  ghost predicate InCone(nodes: seq<Node>, y: nat, x: nat)
    decreases y, 1
  {
    y < |nodes| && exists c :: 0 <= c < |nodes[y].args| && ConeArg(nodes, y, x, nodes[y].args[c])
  }

  ghost predicate ConeArg(nodes: seq<Node>, y: nat, x: nat, a: Arg)
    decreases y, 0
  {
    a.ArgNode? && a.index < y && Scalar(nodes, a.index) && (a.index == x || InCone(nodes, a.index, x))
  }

  /** Puts scalar node `si` and what feeds it ahead of `consumer`, operands first. */
  method Place(nodes: seq<Node>, si: nat, consumer: nat, feeds: seq<seq<nat>>, placed: seq<bool>,
               ghost before: seq<nat>, ghost open: set<nat>) returns (feeds': seq<seq<nat>>, placed': seq<bool>)
    requires Topological(nodes) && ScalarsFeedForward(nodes) && Scalar(nodes, si)
    requires consumer < |feeds| && AllScalar(nodes, feeds)
    requires Ordered(nodes, before + feeds[consumer], true)
    requires PlacedIs(nodes, placed, before + feeds[consumer], open) && forall x :: x in open ==> x > si
    ensures |feeds'| == |feeds| && feeds' == feeds[consumer := feeds'[consumer]] && AllScalar(nodes, feeds')
    ensures Ordered(nodes, before + feeds'[consumer], true) && PlacedIs(nodes, placed', before + feeds'[consumer], open)
    ensures forall x :: x in before + feeds[consumer] ==> x in before + feeds'[consumer]
    ensures si in before + feeds'[consumer]
    ensures forall x :: x in feeds'[consumer] ==> x in feeds[consumer] || x == si || InCone(nodes, si, x)
    decreases si
  {
    feeds', placed' := feeds, placed;
    if placed[si] {
      return;
    }
    placed' := placed'[si := true];
    var args := nodes[si].args;
    assert Backward(nodes, si);
    for c := 0 to |args|
      invariant |feeds'| == |feeds| && feeds' == feeds[consumer := feeds'[consumer]] && AllScalar(nodes, feeds')
      invariant Ordered(nodes, before + feeds'[consumer], true)
      invariant PlacedIs(nodes, placed', before + feeds'[consumer], open + {si})
      invariant forall x :: x in before + feeds[consumer] ==> x in before + feeds'[consumer]
      invariant forall k :: 0 <= k < c && args[k].ArgNode? ==> args[k].index in before + feeds'[consumer]
      invariant forall x :: x in feeds'[consumer] ==> x in feeds[consumer] || InCone(nodes, si, x)
    {
      if args[c].ArgNode? && Scalar(nodes, args[c].index) {
        assert forall x :: x == args[c].index || InCone(nodes, args[c].index, x) ==> ConeArg(nodes, si, x, args[c]);
        feeds', placed' := Place(nodes, args[c].index, consumer, feeds', placed', before, open + {si});
      }
    }
    assert Fed(nodes, before + feeds'[consumer], si, true);
    OrderedSnoc(nodes, before + feeds'[consumer], si, true);
    assert before + feeds'[consumer] + [si] == before + (feeds'[consumer] + [si]);
    feeds' := feeds'[consumer := feeds'[consumer] + [si]];
  }

  /** Places the scalar arguments of vector node `vi`. */
  method PlaceFeeds(nodes: seq<Node>, vi: nat, feeds: seq<seq<nat>>, placed: seq<bool>, ghost before: seq<nat>)
    returns (feeds': seq<seq<nat>>, placed': seq<bool>)
    requires Topological(nodes) && ScalarsFeedForward(nodes) && vi < |nodes| && |feeds| == |nodes|
    requires AllScalar(nodes, feeds) && feeds[vi] == [] && !Scalar(nodes, vi) && Fed(nodes, before, vi, false)
    requires Ordered(nodes, before, true) && PlacedIs(nodes, placed, before, {}) && vi !in before
    ensures |feeds'| == |feeds| && feeds' == feeds[vi := feeds'[vi]] && AllScalar(nodes, feeds')
    ensures Ordered(nodes, before + feeds'[vi] + [vi], true) && PlacedIs(nodes, placed', before + feeds'[vi] + [vi], {})
    ensures forall x :: x in feeds'[vi] ==> InCone(nodes, vi, x)
  {
    feeds', placed' := feeds, placed;
    var args := nodes[vi].args;
    assert before + feeds[vi] == before;
    for c := 0 to |args|
      invariant |feeds'| == |feeds| && feeds' == feeds[vi := feeds'[vi]] && AllScalar(nodes, feeds')
      invariant Ordered(nodes, before + feeds'[vi], true) && PlacedIs(nodes, placed', before + feeds'[vi], {})
      invariant forall k ::
                  0 <= k < c && args[k].ArgNode? && Scalar(nodes, args[k].index) ==>
                    args[k].index in before + feeds'[vi]
      invariant forall x :: x in feeds'[vi] ==> InCone(nodes, vi, x)
    {
      assert Backward(nodes, vi);
      if args[c].ArgNode? && Scalar(nodes, args[c].index) {
        assert forall x :: x == args[c].index || InCone(nodes, args[c].index, x) ==> ConeArg(nodes, vi, x, args[c]);
        feeds', placed' := Place(nodes, args[c].index, vi, feeds', placed', before, {});
      }
    }
    OrderedSnoc(nodes, before + feeds'[vi], vi, true);
  }

  // ----- the whole splice -----

  ghost predicate NoFeeds(feeds: seq<seq<nat>>, s: seq<nat>, k: nat) {
    forall j :: k <= j < |s| && s[j] < |feeds| ==> feeds[s[j]] == []
  }

  lemma {:induction false} FlatHolds(nodes: seq<Node>, feeds: seq<seq<nat>>, s: seq<nat>)
    requires AllScalar(nodes, feeds)
    ensures forall x :: x in s ==> x in Flat(feeds, s)
    ensures forall x :: x in Flat(feeds, s) ==> x in s || Scalar(nodes, x)
  {
    if s != [] {
      var n := |s| - 1;
      FlatHolds(nodes, feeds, s[..n]);
      assert s == s[..n] + [s[n]];
    }
  }

  lemma AscendsConcat(nodes: seq<Node>, a: seq<nat>, f: seq<nat>, v: nat)
    requires MemAscends(nodes, a) && (forall x :: x in f ==> Scalar(nodes, x))
    requires forall x :: x in a && x < |nodes| && v < |nodes| && IsMemOp(nodes[x].op) && IsMemOp(nodes[v].op) ==> x < v
    ensures MemAscends(nodes, a + f + [v])
  {
    var t := a + f + [v];
    forall k | |a| <= k < |a| + |f|
      ensures Scalar(nodes, t[k])
    {
      assert t[k] == f[k - |a|];
    }
    forall j, k |
      0 <= j < k < |t| && t[j] < |nodes| && t[k] < |nodes| && IsMemOp(nodes[t[j]].op) && IsMemOp(nodes[t[k]].op)
      ensures t[j] < t[k]
    {
      assert !Scalar(nodes, t[j]) && !Scalar(nodes, t[k]);
    }
  }

  lemma {:induction false} FlatAscends(nodes: seq<Node>, feeds: seq<seq<nat>>, s: seq<nat>)
    requires AllScalar(nodes, feeds) && MemAscends(nodes, s)
    ensures MemAscends(nodes, Flat(feeds, s))
  {
    if s != [] {
      var n := |s| - 1;
      var v := s[n];
      FlatAscends(nodes, feeds, s[..n]);
      FlatHolds(nodes, feeds, s[..n]);
      AscendsConcat(nodes, Flat(feeds, s[..n]), if v < |feeds| then feeds[v] else [], v);
    }
  }

  /** Everything is listed once all vector nodes are. */
  lemma {:induction false} Listed(nodes: seq<Node>, list: seq<nat>, i: nat)
    requires Topological(nodes) && ScalarsUsed(nodes) && Ordered(nodes, list, true) && i < |nodes|
    requires forall v: nat :: v < |nodes| && !Scalar(nodes, v) ==> v in list
    ensures i in list
    decreases |nodes| - i
  {
    if Scalar(nodes, i) {
      var x := UserOf(nodes, i);
      assert Backward(nodes, x);
      Listed(nodes, list, x);
      var k :| 0 <= k < |list| && list[k] == x;
      assert Fed(nodes, list[..k], list[k], true);
    }
  }

  /** The vector nodes of a list. */
  ghost function Vectors(nodes: seq<Node>, s: seq<nat>): seq<nat> {
    if s == [] then []
    else Vectors(nodes, s[..|s| - 1]) + if Scalar(nodes, s[|s| - 1]) then [] else [s[|s| - 1]]
  }

  /** Each scalar stands before a vector node that reads it, directly or through scalars, with only scalars between. */
  ghost predicate Glued(nodes: seq<Node>, s: seq<nat>) {
    && (s != [] ==> !Scalar(nodes, s[|s| - 1]))
    && (forall j, k {:trigger InCone(nodes, s[k], s[j])} ::
          0 <= j < k < |s| && NextVector(nodes, s, j, k) ==> InCone(nodes, s[k], s[j]))
  }

  /** The scalar at position `j` has its next vector node at position `k`. */
  ghost predicate NextVector(nodes: seq<Node>, s: seq<nat>, j: nat, k: nat)
    requires j < k < |s|
  {
    Scalar(nodes, s[j]) && !Scalar(nodes, s[k]) && forall q :: j < q < k ==> Scalar(nodes, s[q])
  }

  lemma {:induction false} VectorsScalars(nodes: seq<Node>, s: seq<nat>, f: seq<nat>)
    requires forall x :: x in f ==> Scalar(nodes, x)
    ensures Vectors(nodes, s + f) == Vectors(nodes, s)
  {
    if f == [] {
      assert s + f == s;
    } else {
      var n := |f| - 1;
      VectorsScalars(nodes, s, f[..n]);
      assert (s + f)[..|s| + n] == s + f[..n] && f[n] in f;
    }
  }

  lemma GluedOn(nodes: seq<Node>, s: seq<nat>, f: seq<nat>, v: nat)
    requires Glued(nodes, s) && !Scalar(nodes, v) && forall x :: x in f ==> Scalar(nodes, x) && InCone(nodes, v, x)
    ensures Glued(nodes, s + f + [v]) && Vectors(nodes, s + f + [v]) == Vectors(nodes, s) + [v]
  {
    var t := s + f + [v];
    VectorsScalars(nodes, s, f);
    assert t == (s + f) + [v] && ((s + f) + [v])[..|s + f|] == s + f;
    assert forall q :: |s| <= q < |s| + |f| ==> t[q] == f[q - |s|] && t[q] in f;
    assert s != [] ==> t[|s| - 1] == s[|s| - 1];
    forall j, k | 0 <= j < k < |t| && NextVector(nodes, t, j, k)
      ensures InCone(nodes, t[k], t[j])
    {
      if k < |s| {
        forall q | j < q < k
          ensures Scalar(nodes, s[q])
        {
          assert t[q] == s[q];
        }
        assert t[j] == s[j] && t[k] == s[k] && NextVector(nodes, s, j, k);
      }
    }
  }

  lemma {:induction false} FlatGlued(nodes: seq<Node>, feeds: seq<seq<nat>>, s: seq<nat>)
    requires AllScalar(nodes, feeds) && |feeds| == |nodes| && forall v :: v in s ==> v < |nodes| && !Scalar(nodes, v)
    requires forall v, x :: v in s && x in feeds[v] ==> InCone(nodes, v, x)
    ensures Glued(nodes, Flat(feeds, s)) && Vectors(nodes, Flat(feeds, s)) == s
  {
    if s != [] {
      var n := |s| - 1;
      assert s[n] in s && forall v :: v in s[..n] ==> v in s;
      FlatGlued(nodes, feeds, s[..n]);
      GluedOn(nodes, Flat(feeds, s[..n]), feeds[s[n]], s[n]);
      assert s == s[..n] + [s[n]];
    }
  }

  /** Every scalar has its place before some vector node that reads it. */
  ghost predicate Fitted(nodes: seq<Node>, feeds: seq<seq<nat>>, s: seq<nat>) {
    && |feeds| == |nodes| && AllScalar(nodes, feeds)
    && (forall v, x :: 0 <= v < |feeds| && x in feeds[v] ==> InCone(nodes, v, x))
    && Ordered(nodes, Flat(feeds, s), true)
  }

  /** Places what the vector nodes read. */
  method PlaceAll(nodes: seq<Node>, scheduled: seq<nat>) returns (feeds: seq<seq<nat>>)
    requires Topological(nodes) && ScalarsFeedForward(nodes) && Ordered(nodes, scheduled, false)
    requires forall v: nat :: v < |nodes| ==> (v in scheduled <==> !Scalar(nodes, v))
    ensures Fitted(nodes, feeds, scheduled)
  {
    OrderedRange(nodes, scheduled, false);
    feeds := seq(|nodes|, _ => []);
    var placed := seq(|nodes|, _ => false);
    assert scheduled[..0] == [];
    for k := 0 to |scheduled|
      invariant NoFeeds(feeds, scheduled, k) && Fitted(nodes, feeds, scheduled[..k])
      invariant PlacedIs(nodes, placed, Flat(feeds, scheduled[..k]), {})
    {
      var vi := scheduled[k];
      assert vi in scheduled && vi !in scheduled[..k];
      ghost var before := Flat(feeds, scheduled[..k]);
      FlatHolds(nodes, feeds, scheduled[..k]);
      assert Fed(nodes, scheduled[..k], scheduled[k], false);
      assert Fed(nodes, before, vi, false);
      ghost var was := feeds;
      feeds, placed := PlaceFeeds(nodes, vi, feeds, placed, before);
      FlatSame(was, feeds, scheduled[..k], vi, feeds[vi]);
      assert scheduled[..k + 1][..k] == scheduled[..k];
    }
    assert scheduled[..|scheduled|] == scheduled;
  }

  /** The spliced list. */
  method Splice(nodes: seq<Node>, scheduled: seq<nat>) returns (withScalars: seq<nat>)
    requires Topological(nodes) && ScalarsFeedForward(nodes) && ScalarsUsed(nodes)
    requires Ordered(nodes, scheduled, false) && MemAscends(nodes, scheduled)
    requires forall v: nat :: v < |nodes| ==> (v in scheduled <==> !Scalar(nodes, v))
    ensures Ordered(nodes, withScalars, true) && MemAscends(nodes, withScalars)
    ensures forall i: nat :: i < |nodes| ==> i in withScalars
    ensures Vectors(nodes, withScalars) == scheduled && Glued(nodes, withScalars)
  {
    OrderedRange(nodes, scheduled, false);
    var feeds := PlaceAll(nodes, scheduled);
    withScalars := [];
    for k := 0 to |scheduled|
      invariant withScalars == Flat(feeds, scheduled[..k])
    {
      var vi := scheduled[k];
      withScalars := withScalars + feeds[vi] + [vi];
      assert scheduled[..k + 1][..k] == scheduled[..k];
    }
    assert scheduled[..|scheduled|] == scheduled;
    FlatGlued(nodes, feeds, scheduled);
    FlatAscends(nodes, feeds, scheduled);
    AllListed(nodes, feeds, scheduled);
  }

  lemma AllListed(nodes: seq<Node>, feeds: seq<seq<nat>>, scheduled: seq<nat>)
    requires Topological(nodes) && ScalarsUsed(nodes) && Fitted(nodes, feeds, scheduled)
    requires forall v: nat :: v < |nodes| ==> (v in scheduled <==> !Scalar(nodes, v))
    ensures forall i: nat :: i < |nodes| ==> i in Flat(feeds, scheduled)
  {
    FlatHolds(nodes, feeds, scheduled);
    forall i: nat | i < |nodes|
      ensures i in Flat(feeds, scheduled)
    {
      Listed(nodes, Flat(feeds, scheduled), i);
    }
  }

  lemma {:induction false} AllVectors(nodes: seq<Node>, s: seq<nat>)
    requires forall x :: x in s ==> !Scalar(nodes, x)
    ensures Vectors(nodes, s) == s
  {
    if s != [] {
      assert s == s[..|s| - 1] + [s[|s| - 1]];
      AllVectors(nodes, s[..|s| - 1]);
    }
  }

  lemma FedByAll(nodes: seq<Node>, s: seq<nat>)
    requires Ordered(nodes, s, false) && forall i: nat :: i < |nodes| ==> !Scalar(nodes, i)
    ensures Ordered(nodes, s, true)
  {
    forall k | 0 <= k < |s|
      ensures Fed(nodes, s[..k], s[k], true)
    {
      assert Fed(nodes, s[..k], s[k], false);
    }
  }

  /** Without scalar nodes the schedule is already complete. */
  lemma NothingToSplice(nodes: seq<Node>, s: seq<nat>)
    requires Ordered(nodes, s, false) && forall i: nat :: i < |nodes| ==> !Scalar(nodes, i)
    ensures Ordered(nodes, s, true) && Vectors(nodes, s) == s && Glued(nodes, s)
  {
    FedByAll(nodes, s);
    OrderedRange(nodes, s, false);
    AllVectors(nodes, s);
  }

  // ----- renumbering -----

  function Members(s: seq<nat>): (r: set<nat>)
    ensures forall x :: x in r <==> x in s
  {
    set x | x in s
  }

  lemma {:induction false} DistinctSize(s: seq<nat>)
    requires NoDup(s)
    ensures |Members(s)| == |s|
  {
    if s != [] {
      var n := |s| - 1;
      DistinctSize(s[..n]);
      assert s == s[..n] + [s[n]];
      assert Members(s) == Members(s[..n]) + {s[n]};
    }
  }

  lemma AllOnce(nodes: seq<Node>, p: seq<nat>)
    requires Ordered(nodes, p, true) && forall i: nat :: i < |nodes| ==> i in p
    ensures |p| == |nodes|
  {
    OrderedRange(nodes, p, true);
    DistinctSize(p);
    assert Members(p) == Upto(|nodes|);
  }

  ghost predicate Inverse(p: seq<nat>, remap: seq<nat>, k: nat) {
    k <= |p| && forall j :: 0 <= j < k ==> p[j] < |remap| && remap[p[j]] == j
  }

  method Remap(p: seq<nat>, n: nat) returns (remap: seq<nat>)
    requires NoDup(p) && |p| == n && forall j :: 0 <= j < n ==> p[j] < n
    ensures |remap| == n && Inverse(p, remap, n)
  {
    remap := seq(n, _ => 0);
    for j := 0 to n
      invariant |remap| == n && Inverse(p, remap, j)
    {
      remap := remap[p[j] := j];
    }
  }

  function RemappedNode(nd: Node, remap: seq<nat>): Node {
    nd.(args := seq(|nd.args|, c requires 0 <= c < |nd.args| => Remapped(nd.args[c], remap)))
  }

  /** Listing the nodes in the spliced order rearranges them. */
  lemma Rearranged(a: seq<Node>, b: seq<Node>, p: seq<nat>, remap: seq<nat>)
    requires Topological(a) && Ordered(a, p, true) && MemAscends(a, p) && forall i: nat :: i < |a| ==> i in p
    requires |p| == |a| == |b| == |remap| && Inverse(p, remap, |p|)
    requires forall j :: 0 <= j < |p| ==> p[j] < |a| && b[j] == RemappedNode(a[p[j]], remap)
    ensures Rearranges(a, b, p, remap) && Topological(b) && KeepsMemOrder(a, p)
  {
    forall i | 0 <= i < |a|
      ensures remap[i] < |a| && p[remap[i]] == i
    {
      assert i in p;
      var k :| 0 <= k < |p| && p[k] == i;
    }
    forall j | 0 <= j < |b|
      ensures Backward(b, j)
    {
      var nd := a[p[j]];
      assert Fed(a, p[..j], p[j], true) && Backward(a, p[j]);
      forall c | 0 <= c < |b[j].args| && b[j].args[c].ArgNode?
        ensures b[j].args[c].index < j
      {
        assert b[j].args[c] == Remapped(nd.args[c], remap);
        assert nd.args[c].ArgNode? && nd.args[c].index in p[..j];
      }
    }
  }

  /** The nodes in their new order, with every argument renumbered. */
  method Renumber(nodes: seq<Node>, p: seq<nat>) returns (newNodes: seq<Node>, remap: seq<nat>)
    requires Topological(nodes) && Ordered(nodes, p, true) && MemAscends(nodes, p)
    requires |p| == |nodes| && forall i: nat :: i < |nodes| ==> i in p
    ensures Rearranges(nodes, newNodes, p, remap) && Topological(newNodes) && KeepsMemOrder(nodes, p)
  {
    OrderedRange(nodes, p, true);
    remap := Remap(p, |nodes|);
    newNodes := [];
    for j := 0 to |nodes|
      invariant |newNodes| == j
      invariant forall k :: 0 <= k < j ==> newNodes[k] == RemappedNode(nodes[p[k]], remap)
    {
      newNodes := newNodes + [RemappedNode(nodes[p[j]], remap)];
    }
    Rearranged(nodes, newNodes, p, remap);
  }
}
