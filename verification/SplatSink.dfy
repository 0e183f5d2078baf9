/** Sinking splats to their uses. */
module SplatSink {
  import opened Basics
  import opened FusedTree
  import opened Reassociate
  import opened ChainRewrite
  import opened ScheduleOrder
  import opened ListSchedule

  // ----- moving one splat -----

  /** `at` is the last position below `k` that uses `d`. */
  ghost predicate LastUseAt(nodes: seq<Node>, s: seq<nat>, k: nat, d: nat, at: nat)
    requires k <= |s|
  {
    forall p :: 0 <= p < k && s[p] < |nodes| && ArgNode(d) in nodes[s[p]].args ==>
      p <= at < k && s[at] < |nodes| && ArgNode(d) in nodes[s[at]].args
  }

  ghost predicate LastUses(nodes: seq<Node>, s: seq<nat>, k: nat, lastUse: seq<nat>)
    requires k <= |s|
  {
    |lastUse| == |nodes| && forall d: nat :: d < |nodes| && !Scalar(nodes, d) ==> LastUseAt(nodes, s, k, d, lastUse[d])
  }

  /** Records where every vector node is used last. */
  method NoteLastUses(nodes: seq<Node>, s: seq<nat>, start: seq<nat>) returns (lastUse: seq<nat>)
    requires Topological(nodes) && |start| == |nodes| && forall k :: 0 <= k < |s| ==> s[k] < |nodes|
    ensures LastUses(nodes, s, |s|, lastUse)
  {
    lastUse := start;
    for p := 0 to |s|
      invariant LastUses(nodes, s, p, lastUse)
    {
      assert Backward(nodes, s[p]);
      var args := nodes[s[p]].args;
      ghost var was := lastUse;
      for c := 0 to |args|
        invariant |lastUse| == |nodes|
        invariant forall d: nat :: d < |nodes| && !Scalar(nodes, d) ==>
                    lastUse[d] == if ArgNode(d) in args[..c] then p else was[d]
      {
        assert args[..c + 1] == args[..c] + [args[c]];
        if args[c].ArgNode? && !Scalar(nodes, args[c].index) {
          lastUse := lastUse[args[c].index := p];
        }
      }
      assert args[..|args|] == args;
      forall d: nat | d < |nodes| && !Scalar(nodes, d)
        ensures LastUseAt(nodes, s, p + 1, d, lastUse[d])
      {
        assert LastUseAt(nodes, s, p, d, was[d]);
      }
    }
  }

  /** Counts the uses of every vector node. */
  method CountVecUses(nodes: seq<Node>, s: seq<nat>) returns (vecUses: seq<nat>)
    requires Topological(nodes) && forall k :: 0 <= k < |s| ==> s[k] < |nodes|
    ensures |vecUses| == |nodes|
    ensures forall d: nat :: d < |nodes| && !Scalar(nodes, d) ==> vecUses[d] == SumNames(nodes, s, d)
  {
    vecUses := seq(|nodes|, _ => 0);
    for p := 0 to |s|
      invariant |vecUses| == |nodes|
      invariant forall d: nat :: d < |nodes| && !Scalar(nodes, d) ==> vecUses[d] == SumNames(nodes, s[..p], d)
    {
      assert Backward(nodes, s[p]);
      var args := nodes[s[p]].args;
      for c := 0 to |args|
        invariant |vecUses| == |nodes|
        invariant forall d: nat :: d < |nodes| && !Scalar(nodes, d) ==>
                    vecUses[d] == SumNames(nodes, s[..p], d) + Times(args[..c], ArgNode(d))
      {
        assert args[..c + 1] == args[..c] + [args[c]];
        if args[c].ArgNode? && !Scalar(nodes, args[c].index) {
          vecUses := vecUses[args[c].index := vecUses[args[c].index] + 1];
        }
      }
      assert args[..|args|] == args;
      assert s[..p + 1][..p] == s[..p];
    }
    assert s[..|s|] == s;
  }

  lemma {:induction false} UsePosition(nodes: seq<Node>, s: seq<nat>, d: nat) returns (p: nat)
    requires SumNames(nodes, s, d) >= 1
    ensures p < |s| && s[p] < |nodes| && ArgNode(d) in nodes[s[p]].args
  {
    var n := |s| - 1;
    if NamesAt(nodes, s[n], d) >= 1 {
      p := n;
    } else {
      p := UsePosition(nodes, s[..n], d);
    }
  }

  /** The one use of `d` is at its last use. */
  lemma UsedOnlyThere(nodes: seq<Node>, s: seq<nat>, d: nat, at: nat)
    requires SumNames(nodes, s, d) == 1 && LastUseAt(nodes, s, |s|, d, at)
    ensures at < |s| && forall k :: 0 <= k < at && s[k] < |nodes| ==> ArgNode(d) !in nodes[s[k]].args
  {
    var p := UsePosition(nodes, s, d);
    forall k | 0 <= k < at && s[k] < |nodes|
      ensures ArgNode(d) !in nodes[s[k]].args
    {
      if ArgNode(d) in nodes[s[k]].args {
        OnlyUse(nodes, s, k, at, d);
      }
    }
  }

  ghost predicate SameUses(nodes: seq<Node>, s: seq<nat>, vecUses: seq<nat>) {
    |vecUses| == |nodes| && forall d: nat :: d < |nodes| && !Scalar(nodes, d) ==> vecUses[d] == SumNames(nodes, s, d)
  }

  /** Moving one splat down to its use. */
  lemma SplatSinks(nodes: seq<Node>, s: seq<nat>, vecUses: seq<nat>, pos: nat, at: nat)
    requires pos < at && pos < |s| && s[pos] < |nodes| && nodes[s[pos]].op == Splat
    requires Ordered(nodes, s, false) && MemAscends(nodes, s) && SameUses(nodes, s, vecUses)
    requires vecUses[s[pos]] == 1 && LastUseAt(nodes, s, |s|, s[pos], at)
    ensures at < |s| && Ordered(nodes, Sunk(s, pos, at), false) && MemAscends(nodes, Sunk(s, pos, at))
    ensures SameUses(nodes, Sunk(s, pos, at), vecUses) && multiset(Sunk(s, pos, at)) == multiset(s)
  {
    UsedOnlyThere(nodes, s, s[pos], at);
    SinkKeeps(nodes, s, pos, at);
    SunkMultiset(s, pos, at);
    forall d: nat | d < |nodes| && !Scalar(nodes, d)
      ensures vecUses[d] == SumNames(nodes, Sunk(s, pos, at), d)
    {
      SumNamesPermuted(nodes, s, Sunk(s, pos, at), d);
    }
  }

  // ----- where splats end up -----

  /** The splats that may sink: used once by the scheduled nodes, and no root. */
  ghost predicate Sinkable(nodes: seq<Node>, s: seq<nat>, roots: seq<nat>, x: nat) {
    x < |nodes| && nodes[x].op == Splat && SumNames(nodes, s, x) == 1 && x !in roots
  }

  ghost function Sinkables(nodes: seq<Node>, s: seq<nat>, roots: seq<nat>): set<nat>
    ensures forall x :: x in Sinkables(nodes, s, roots) <==> Sinkable(nodes, s, roots, x)
  {
    set x | 0 <= x < |nodes| && Sinkable(nodes, s, roots, x)
  }

  /** The node at position `k` uses the one at position `j`. */
  ghost predicate UsesAt(nodes: seq<Node>, s: seq<nat>, j: nat, k: nat)
    requires j < |s| && k < |s|
  {
    s[k] < |nodes| && ArgNode(s[j]) in nodes[s[k]].args
  }

  /** From position `from` on, nothing but sinkable splats stands between one and its use. */
  ghost predicate Close(nodes: seq<Node>, s: seq<nat>, splats: set<nat>, from: nat) {
    forall j, q, k {:trigger UsesAt(nodes, s, j, k), s[q]} ::
      from <= j < q < k < |s| && s[j] in splats && UsesAt(nodes, s, j, k) ==> s[q] in splats
  }

  ghost predicate Precedes(s: seq<nat>, x: nat, y: nat) {
    exists j, k :: 0 <= j < k < |s| && s[j] == x && s[k] == y
  }

  /** Splats with a common use come in the reverse of their order in `old`. */
  ghost predicate Reverses(nodes: seq<Node>, was: seq<nat>, s: seq<nat>, splats: set<nat>, from: nat) {
    forall j, q, k {:trigger UsesAt(nodes, s, j, k), UsesAt(nodes, s, q, k)} ::
      from <= j < q < k < |s| && s[j] in splats && s[q] in splats && UsesAt(nodes, s, j, k)
        && UsesAt(nodes, s, q, k) ==>
        Precedes(was, s[q], s[j])
  }

  /** `s` without `xs`. */
  ghost function Without(s: seq<nat>, xs: set<nat>): seq<nat> {
    if s == [] then []
    else Without(s[..|s| - 1], xs) + if s[|s| - 1] in xs then [] else [s[|s| - 1]]
  }

  lemma {:induction false} WithoutConcat(s: seq<nat>, t: seq<nat>, xs: set<nat>)
    ensures Without(s + t, xs) == Without(s, xs) + Without(t, xs)
  {
    if t == [] {
      assert s + t == s;
    } else {
      var n := |t| - 1;
      WithoutConcat(s, t[..n], xs);
      assert (s + t)[..|s| + n] == s + t[..n];
    }
  }

  lemma FourWithout(a: seq<nat>, b: seq<nat>, c: seq<nat>, d: seq<nat>, xs: set<nat>)
    ensures Without(a + b + c + d, xs) == Without(a, xs) + Without(b, xs) + Without(c, xs) + Without(d, xs)
  {
    WithoutConcat(a, b, xs);
    WithoutConcat(a + b, c, xs);
    WithoutConcat(a + b + c, d, xs);
  }

  lemma SunkWithout(s: seq<nat>, pos: nat, at: nat, xs: set<nat>)
    requires pos < at <= |s| && s[pos] in xs
    ensures Without(Sunk(s, pos, at), xs) == Without(s, xs)
  {
    var a, b, c, d := s[..pos], [s[pos]], s[pos + 1..at], s[at..];
    assert s == a + b + c + d && Without(b, xs) == [];
    FourWithout(a, b, c, d, xs);
    FourWithout(a, c, b, d, xs);
  }

  /** Sinking has come down to position `pos`. */
  ghost predicate SunkTo(nodes: seq<Node>, was: seq<nat>, s: seq<nat>, splats: set<nat>, pos: nat) {
    && pos <= |s| == |was| && s[..pos] == was[..pos] && multiset(s[pos..]) == multiset(was[pos..])
    && Close(nodes, s, splats, pos) && Reverses(nodes, was, s, splats, pos)
    && Without(s, splats) == Without(was, splats)
  }

  /** A position that holds no splat to sink, or one whose use is next. */
  lemma StayPut(nodes: seq<Node>, was: seq<nat>, s: seq<nat>, splats: set<nat>, pos: nat)
    requires SunkTo(nodes, was, s, splats, pos + 1)
    requires s[pos] in splats ==> forall k :: pos + 1 < k < |s| ==> !UsesAt(nodes, s, pos, k)
    ensures SunkTo(nodes, was, s, splats, pos)
  {
    assert s[pos] == was[pos] by {
      assert s[..pos + 1][pos] == was[..pos + 1][pos];
    }
    assert s[..pos] == s[..pos + 1][..pos] && was[..pos] == was[..pos + 1][..pos];
    assert s[pos..] == [s[pos]] + s[pos + 1..] && was[pos..] == [was[pos]] + was[pos + 1..];
  }

  /** A use in the sunk list is a use in the list. */
  lemma UseFrom(nodes: seq<Node>, s: seq<nat>, pos: nat, at: nat, j: nat, k: nat)
    requires pos < at <= |s| && j < |s| && k < |s| && UsesAt(nodes, Sunk(s, pos, at), j, k)
    ensures From(pos, at, j) < |s| && From(pos, at, k) < |s| && UsesAt(nodes, s, From(pos, at, j), From(pos, at, k))
  {
    SunkAt(s, pos, at, j);
    SunkAt(s, pos, at, k);
  }

  /** A vector node is used behind itself only. */
  lemma UsedBehind(nodes: seq<Node>, s: seq<nat>, j: nat, k: nat)
    requires Ordered(nodes, s, false) && j < |s| && k < |s| && UsesAt(nodes, s, j, k) && !Scalar(nodes, s[j])
    ensures j < k
  {
    assert Fed(nodes, s[..k], s[k], false);
    assert s[j] in s[..k];
    var i :| 0 <= i < k && s[..k][i] == s[j];
    assert s[i] == s[j];
  }

  lemma CloseSunk(nodes: seq<Node>, s: seq<nat>, splats: set<nat>, pos: nat, at: nat)
    requires pos < at < |s| && s[pos] in splats && Close(nodes, s, splats, pos + 1) && Ordered(nodes, s, false)
    requires forall x :: x in splats ==> !Scalar(nodes, x)
    requires forall k :: 0 <= k < |s| && UsesAt(nodes, s, pos, k) ==> k == at
    ensures Close(nodes, Sunk(s, pos, at), splats, pos)
  {
    var t := Sunk(s, pos, at);
    forall j, q, k | pos <= j < q < k < |t| && t[j] in splats && UsesAt(nodes, t, j, k)
      ensures t[q] in splats
    {
      UseFrom(nodes, s, pos, at, j, k);
      SunkAt(s, pos, at, j);
      SunkAt(s, pos, at, q);
      UsedBehind(nodes, s, From(pos, at, j), From(pos, at, k));
    }
  }

  lemma ReversesSunk(nodes: seq<Node>, was: seq<nat>, s: seq<nat>, splats: set<nat>, pos: nat, at: nat)
    requires pos < at < |s| && s[pos] in splats && Ordered(nodes, s, false) && SunkTo(nodes, was, s, splats, pos + 1)
    requires forall x :: x in splats ==> !Scalar(nodes, x)
    requires forall k :: 0 <= k < |s| && UsesAt(nodes, s, pos, k) ==> k == at
    ensures Reverses(nodes, was, Sunk(s, pos, at), splats, pos)
  {
    var t := Sunk(s, pos, at);
    forall j, q, k | pos <= j < q < k < |t| && t[j] in splats && t[q] in splats
                     && UsesAt(nodes, t, j, k) && UsesAt(nodes, t, q, k)
      ensures Precedes(was, t[q], t[j])
    {
      UseFrom(nodes, s, pos, at, j, k);
      UseFrom(nodes, s, pos, at, q, k);
      SunkAt(s, pos, at, j);
      SunkAt(s, pos, at, q);
      UsedBehind(nodes, s, From(pos, at, j), From(pos, at, k));
      UsedBehind(nodes, s, From(pos, at, q), From(pos, at, k));
      if q == at - 1 {
        BehindInBoth(was, s, pos, From(pos, at, j));
      }
    }
  }

  /** What stands behind an untouched position stood behind it before. */
  lemma BehindInBoth(was: seq<nat>, s: seq<nat>, pos: nat, j: nat)
    requires pos < j < |s| == |was| && s[..pos + 1] == was[..pos + 1]
    requires multiset(s[pos + 1..]) == multiset(was[pos + 1..])
    ensures Precedes(was, s[pos], s[j])
  {
    assert s[pos] == s[..pos + 1][pos] == was[..pos + 1][pos] == was[pos];
    assert s[pos + 1..][j - pos - 1] == s[j];
    assert s[j] in multiset(was[pos + 1..]);
    var k :| 0 <= k < |was| - pos - 1 && was[pos + 1..][k] == s[j];
    assert was[pos + 1 + k] == s[j];
  }

  /** A splat sinks to its use. */
  lemma SinkDown(nodes: seq<Node>, was: seq<nat>, s: seq<nat>, splats: set<nat>, pos: nat, at: nat)
    requires pos < at < |s| && s[pos] in splats && Ordered(nodes, s, false) && SunkTo(nodes, was, s, splats, pos + 1)
    requires forall x :: x in splats ==> !Scalar(nodes, x)
    requires forall k :: 0 <= k < |s| && UsesAt(nodes, s, pos, k) ==> k == at
    ensures SunkTo(nodes, was, Sunk(s, pos, at), splats, pos)
  {
    var t := Sunk(s, pos, at);
    CloseSunk(nodes, s, splats, pos, at);
    ReversesSunk(nodes, was, s, splats, pos, at);
    SunkWithout(s, pos, at, splats);
    assert s[pos] == s[..pos + 1][pos] == was[..pos + 1][pos] == was[pos];
    assert t[..pos] == s[..pos + 1][..pos] && was[..pos] == was[..pos + 1][..pos];
    assert t[pos..] == s[pos + 1..at] + [s[pos]] + s[at..] && s[pos + 1..] == s[pos + 1..at] + s[at..];
    assert was[pos..] == [was[pos]] + was[pos + 1..];
  }

  /** The one use of a splat is the last one. */
  lemma OneUseAt(nodes: seq<Node>, s: seq<nat>, pos: nat, at: nat)
    requires pos < |s| && SumNames(nodes, s, s[pos]) == 1 && LastUseAt(nodes, s, |s|, s[pos], at)
    ensures at < |s| && UsesAt(nodes, s, pos, at) && forall k :: 0 <= k < |s| && UsesAt(nodes, s, pos, k) ==> k == at
  {
    UsedOnlyThere(nodes, s, s[pos], at);
    var p := UsePosition(nodes, s, s[pos]);
  }

  /** `s` lists the same nodes: a splat that may sink has only such splats between itself and its use, those with a
      common use are reversed, and the other nodes stand as they did. */
  ghost predicate SplatsSunk(nodes: seq<Node>, was: seq<nat>, s: seq<nat>, roots: seq<nat>) {
    var splats := Sinkables(nodes, was, roots);
    && multiset(s) == multiset(was) && Close(nodes, s, splats, 0) && Reverses(nodes, was, s, splats, 0)
    && Without(s, splats) == Without(was, splats)
  }

  /** Moves every splat with one consumer, other than a root, next to it. */
  method SinkSplats(nodes: seq<Node>, scheduled: seq<nat>, roots: seq<nat>) returns (s: seq<nat>)
    requires Topological(nodes) && Ordered(nodes, scheduled, false) && MemAscends(nodes, scheduled)
    ensures Ordered(nodes, s, false) && MemAscends(nodes, s) && multiset(s) == multiset(scheduled)
    ensures SplatsSunk(nodes, scheduled, s, roots)
  {
    s := scheduled;
    OrderedRange(nodes, s, false);
    var vecUses := CountVecUses(nodes, s);
    var lastUse := NoteLastUses(nodes, s, seq(|nodes|, _ => 0));
    ghost var splats := Sinkables(nodes, scheduled, roots);
    for pos := |s| downto 0
      invariant |s| == |scheduled| && Ordered(nodes, s, false) && MemAscends(nodes, s)
      invariant multiset(s) == multiset(scheduled)
      invariant SameUses(nodes, s, vecUses) && LastUses(nodes, s, |s|, lastUse)
      invariant SunkTo(nodes, scheduled, s, splats, pos)
    {
      OrderedRange(nodes, s, false);
      var vi := s[pos];
      SplatCounts(nodes, scheduled, s, roots, vi);
      if nodes[vi].op != Splat || vecUses[vi] != 1 || vi in roots {
        StayPut(nodes, scheduled, s, splats, pos);
        continue;
      }
      var at := lastUse[vi];
      assert LastUseAt(nodes, s, |s|, s[pos], lastUse[vi]);
      OneUseAt(nodes, s, pos, at);
      if at <= pos + 1 {
        StayPut(nodes, scheduled, s, splats, pos);
        continue;
      }
      SplatSinks(nodes, s, vecUses, pos, at);
      SinkDown(nodes, scheduled, s, splats, pos, at);
      s := Sunk(s, pos, at);
      OrderedRange(nodes, s, false);
      lastUse := NoteLastUses(nodes, s, lastUse);
    }
  }

  /** Use counts do not depend on the order. */
  lemma SplatCounts(nodes: seq<Node>, was: seq<nat>, s: seq<nat>, roots: seq<nat>, x: nat)
    requires multiset(s) == multiset(was)
    ensures Sinkable(nodes, was, roots, x) <==> Sinkable(nodes, s, roots, x)
  {
    SumNamesPermuted(nodes, was, s, x);
  }
}
