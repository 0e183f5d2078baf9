/** The distribution of the defined functions over packages. */
module MultiPkg {
  import opened Basics
  import opened CallGraph
  import opened TarjanInvariant
  import Tarjan
  import opened Packing
  import opened FirstFit
  import Reachability

  /** `funcIdxs` are global function indices. */
  datatype Chunk = Chunk(funcIdxs: seq<nat>, bytes: nat)

  datatype Plan = Plan(chunks: seq<Chunk>, funcToChunk: map<nat, nat>)

  // ----- components to bins -----

  /** A component is dropped when its first function is known dead. */
  predicate Keep(scc: seq<nat>, reachable: Option<set<nat>>) {
    !(reachable.Some? && |scc| > 0 && scc[0] !in reachable.value)
  }

  ghost function KeptBins(sccs: seq<seq<nat>>, size: seq<nat>, reachable: Option<set<nat>>): seq<Bin> {
    if sccs == [] then []
    else
      var n := |sccs| - 1;
      KeptBins(sccs[..n], size, reachable)
      + if Keep(sccs[n], reachable) then [Bin(sccs[n], SumSizes(sccs[n], size))] else []
  }

  /** `f` is in a kept component. */
  ghost predicate InKept(sccs: seq<seq<nat>>, reachable: Option<set<nat>>, f: nat) {
    exists i :: 0 <= i < |sccs| && f in sccs[i] && Keep(sccs[i], reachable)
  }

  lemma {:induction false} KeptBinsSized(sccs: seq<seq<nat>>, size: seq<nat>, reachable: Option<set<nat>>)
    ensures Sized(KeptBins(sccs, size, reachable), size)
  {
    if sccs != [] {
      KeptBinsSized(sccs[..|sccs| - 1], size, reachable);
    }
  }

  /** Every bin is a kept component. */
  lemma {:induction false} BinIsComponent(sccs: seq<seq<nat>>, size: seq<nat>, reachable: Option<set<nat>>, b: Bin)
    returns (i: nat)
    requires b in KeptBins(sccs, size, reachable)
    ensures i < |sccs| && sccs[i] == b.funcs && Keep(sccs[i], reachable)
  {
    var n := |sccs| - 1;
    if b in KeptBins(sccs[..n], size, reachable) {
      i := BinIsComponent(sccs[..n], size, reachable, b);
    } else {
      i := n;
    }
  }

  lemma {:induction false} OnceCount(s: seq<nat>, f: nat)
    requires NoDup(s)
    ensures multiset(s)[f] == if f in s then 1 else 0
  {
    if s != [] {
      var n := |s| - 1;
      assert s == s[..n] + [s[n]];
      OnceCount(s[..n], f);
    }
  }

  lemma InKeptStep(sccs: seq<seq<nat>>, reachable: Option<set<nat>>, f: nat)
    requires sccs != []
    ensures var n := |sccs| - 1;
            InKept(sccs, reachable, f) <==>
              InKept(sccs[..n], reachable, f) || (f in sccs[n] && Keep(sccs[n], reachable))
  {
    var n := |sccs| - 1;
    if InKept(sccs[..n], reachable, f) {
      var i :| 0 <= i < n && f in sccs[..n][i] && Keep(sccs[..n][i], reachable);
      assert f in sccs[i];
    }
    if InKept(sccs, reachable, f) {
      var i :| 0 <= i < |sccs| && f in sccs[i] && Keep(sccs[i], reachable);
      assert i < n ==> f in sccs[..n][i];
    }
  }

  lemma NotBefore(sccs: seq<seq<nat>>, reachable: Option<set<nat>>, f: nat)
    requires NoRepeats(sccs) && sccs != [] && f in sccs[|sccs| - 1]
    ensures !InKept(sccs[..|sccs| - 1], reachable, f)
  {
    var n := |sccs| - 1;
    var a :| 0 <= a < |sccs[n]| && sccs[n][a] == f;
    forall i | 0 <= i < n
      ensures f !in sccs[..n][i]
    {
      assert forall b :: 0 <= b < |sccs[i]| ==> sccs[i][b] != sccs[n][a];
    }
  }

  lemma {:induction false} KeptBinsCount(sccs: seq<seq<nat>>, size: seq<nat>, reachable: Option<set<nat>>, f: nat)
    requires NoRepeats(sccs)
    ensures Count(KeptBins(sccs, size, reachable), f) == if InKept(sccs, reachable, f) then 1 else 0
  {
    if sccs != [] {
      var n := |sccs| - 1;
      FrontNoRepeats(sccs);
      KeptBinsCount(sccs[..n], size, reachable, f);
      InKeptStep(sccs, reachable, f);
      OnceCount(sccs[n], f);
      if f in sccs[n] {
        NotBefore(sccs, reachable, f);
      }
      if Keep(sccs[n], reachable) {
        Append(KeptBins(sccs[..n], size, reachable), Bin(sccs[n], SumSizes(sccs[n], size)));
      } else {
        assert KeptBins(sccs, size, reachable) == KeptBins(sccs[..n], size, reachable);
      }
    }
  }

  lemma FrontNoRepeats(sccs: seq<seq<nat>>)
    requires NoRepeats(sccs) && sccs != []
    ensures NoRepeats(sccs[..|sccs| - 1]) && NoDup(sccs[|sccs| - 1])
  {
  }

  method MakeBins(sccs: seq<seq<nat>>, size: seq<nat>, reachable: Option<set<nat>>) returns (bins: seq<Bin>)
    requires forall i, a :: 0 <= i < |sccs| && 0 <= a < |sccs[i]| ==> sccs[i][a] < |size|
    ensures bins == KeptBins(sccs, size, reachable)
  {
    bins := [];
    for i := 0 to |sccs|
      invariant bins == KeptBins(sccs[..i], size, reachable)
    {
      assert sccs[..i + 1][..i] == sccs[..i];
      var scc := sccs[i];
      if reachable.Some? && |scc| > 0 && scc[0] !in reachable.value {
        continue;
      }
      var bytes := 0;
      for a := 0 to |scc|
        invariant bytes == SumSizes(scc[..a], size)
      {
        assert scc[..a + 1][..a] == scc[..a];
        bytes := bytes + size[scc[a]];
      }
      assert scc[..|scc|] == scc;
      bins := bins + [Bin(scc, bytes)];
    }
    assert sccs[..|sccs|] == sccs;
  }

  // ----- chunks to the plan -----

  function InsertAscending(s: seq<nat>, x: nat): (r: seq<nat>)
    ensures multiset(r) == multiset(s) + multiset{x}
  {
    if s == [] || s[|s| - 1] <= x then s + [x]
    else
      assert s == s[..|s| - 1] + [s[|s| - 1]];
      InsertAscending(s[..|s| - 1], x) + [s[|s| - 1]]
  }

  function SortAscending(s: seq<nat>): (r: seq<nat>)
    ensures multiset(r) == multiset(s)
  {
    if s == [] then []
    else
      assert s == s[..|s| - 1] + [s[|s| - 1]];
      InsertAscending(SortAscending(s[..|s| - 1]), s[|s| - 1])
  }

  lemma {:induction false} InsertKeepsOrder(s: seq<nat>, x: nat)
    requires Ascending(s) && x !in s
    ensures Ascending(InsertAscending(s, x))
  {
    if s == [] {
    } else if s[|s| - 1] <= x {
      assert InsertAscending(s, x) == s + [x];
      forall i | 0 <= i < |s|
        ensures s[i] < x
      {
        assert s[i] in s && s[i] <= s[|s| - 1];
      }
    } else {
      var n := |s| - 1;
      InsertKeepsOrder(s[..n], x);
      InsertBelow(s, x);
      assert InsertAscending(s, x) == InsertAscending(s[..n], x) + [s[n]];
    }
  }

  lemma InsertBelow(s: seq<nat>, x: nat)
    requires Ascending(s) && s != [] && s[|s| - 1] > x
    ensures var r := InsertAscending(s[..|s| - 1], x); forall i :: 0 <= i < |r| ==> r[i] < s[|s| - 1]
  {
    var n := |s| - 1;
    var r := InsertAscending(s[..n], x);
    forall i | 0 <= i < |r|
      ensures r[i] < s[n]
    {
      assert r[i] in multiset(r);
      if r[i] != x {
        assert r[i] in s[..n];
      }
    }
  }

  lemma {:induction false} SortOrders(s: seq<nat>)
    requires NoDup(s)
    ensures Ascending(SortAscending(s))
  {
    if s != [] {
      var n := |s| - 1;
      SortOrders(s[..n]);
      assert s[n] !in s[..n];
      assert s[n] !in multiset(SortAscending(s[..n]));
      InsertKeepsOrder(SortAscending(s[..n]), s[n]);
    }
  }

  lemma SortMembers(s: seq<nat>, x: nat)
    ensures x in SortAscending(s) <==> x in s
  {
    assert x in SortAscending(s) <==> x in multiset(SortAscending(s));
  }

  /** Chunk `c` lists the functions of bin `b`, by global index. */
  ghost predicate Renders(c: Chunk, b: Bin, numImports: nat) {
    && c.bytes == b.bytes
    && forall fi: nat {:trigger fi in c.funcIdxs} :: fi in c.funcIdxs <==>
         fi >= numImports && fi - numImports in b.funcs
  }

  method RenderChunk(b: Bin, numImports: nat, i: nat, m0: map<nat, nat>) returns (c: Chunk, m: map<nat, nat>)
    requires NoDup(b.funcs)
    ensures Renders(c, b, numImports) && Ascending(c.funcIdxs)
    ensures forall fi :: fi in m <==> fi in m0 || fi in c.funcIdxs
    ensures forall fi :: fi in m ==> m[fi] == if fi in c.funcIdxs then i else m0[fi]
  {
    var sorted := SortAscending(b.funcs);
    var idxs: seq<nat> := [];
    m := m0;
    for k := 0 to |sorted|
      invariant |idxs| == k && forall j :: 0 <= j < k ==> idxs[j] == numImports + sorted[j]
      invariant forall fi :: fi in m <==> fi in m0 || fi in idxs
      invariant forall fi :: fi in m ==> m[fi] == if fi in idxs then i else m0[fi]
    {
      idxs := idxs + [numImports + sorted[k]];
      m := m[numImports + sorted[k] := i];
    }
    c := Chunk(idxs, b.bytes);
    RenderedOk(c, b, numImports, sorted);
    SortOrders(b.funcs);
    ShiftedAscends(c.funcIdxs, sorted, numImports);
  }

  lemma RenderedOk(c: Chunk, b: Bin, numImports: nat, sorted: seq<nat>)
    requires c.bytes == b.bytes && sorted == SortAscending(b.funcs)
    requires |c.funcIdxs| == |sorted| && forall k :: 0 <= k < |sorted| ==> c.funcIdxs[k] == numImports + sorted[k]
    ensures Renders(c, b, numImports)
  {
    forall fi: nat
      ensures fi in c.funcIdxs <==> fi >= numImports && fi - numImports in b.funcs
    {
      RenderedMember(c.funcIdxs, b.funcs, sorted, numImports, fi);
    }
  }

  lemma RenderedMember(idxs: seq<nat>, funcs: seq<nat>, sorted: seq<nat>, numImports: nat, fi: nat)
    requires sorted == SortAscending(funcs)
    requires |idxs| == |sorted| && forall k :: 0 <= k < |sorted| ==> idxs[k] == numImports + sorted[k]
    ensures fi in idxs <==> fi >= numImports && fi - numImports in funcs
  {
    ShiftedMember(idxs, sorted, numImports, fi);
    if fi >= numImports {
      SortMembers(funcs, fi - numImports);
    }
  }

  lemma ShiftedAscends(idxs: seq<nat>, fs: seq<nat>, numImports: nat)
    requires |idxs| == |fs| && (forall k :: 0 <= k < |fs| ==> idxs[k] == numImports + fs[k]) && Ascending(fs)
    ensures Ascending(idxs)
  {
  }

  lemma ShiftedMember(idxs: seq<nat>, fs: seq<nat>, numImports: nat, fi: nat)
    requires |idxs| == |fs| && forall k :: 0 <= k < |fs| ==> idxs[k] == numImports + fs[k]
    ensures fi in idxs <==> fi >= numImports && fi - numImports in fs
  {
    if fi >= numImports && fi - numImports in fs {
      var k :| 0 <= k < |fs| && fs[k] == fi - numImports;
      assert idxs[k] == fi;
    }
  }

  /** The chunks list the functions of the bins. */
  ghost predicate RendersAll(out: seq<Chunk>, bins: seq<Bin>, numImports: nat) {
    && |out| == |bins|
    && forall i {:trigger Renders(out[i], bins[i], numImports)} :: 0 <= i < |bins| ==>
         Renders(out[i], bins[i], numImports) && Ascending(out[i].funcIdxs)
  }

  /** The map sends exactly the listed functions to the one chunk that lists them. */
  ghost predicate Maps(out: seq<Chunk>, m: map<nat, nat>) {
    && (forall fi :: fi in m ==> Listed(out, m[fi], fi))
    && (forall i: nat, fi: nat {:trigger Listed(out, i, fi)} :: Listed(out, i, fi) ==> fi in m && m[fi] == i)
  }

  ghost predicate PlanOf(plan: Plan, bins: seq<Bin>, numImports: nat) {
    RendersAll(plan.chunks, bins, numImports) && Maps(plan.chunks, plan.funcToChunk)
  }

  ghost predicate Listed(chunks: seq<Chunk>, i: nat, fi: nat) {
    i < |chunks| && fi in chunks[i].funcIdxs
  }

  /** Two chunks rendered from different bins list different functions. */
  lemma ChunksDiffer(c0: Chunk, c1: Chunk, bins: seq<Bin>, j: nat, i: nat, numImports: nat, fi: nat)
    requires j < i < |bins| && forall f :: Count(bins, f) <= 1
    requires Renders(c0, bins[j], numImports) && Renders(c1, bins[i], numImports)
    requires fi in c1.funcIdxs
    ensures fi !in c0.funcIdxs
  {
    if fi in c0.funcIdxs {
      NotInBoth(bins, j, i, fi - numImports);
    }
  }

  lemma NotInBoth(bins: seq<Bin>, j: nat, i: nat, f: nat)
    requires j < i < |bins| && f in bins[j].funcs && Count(bins, f) <= 1
    ensures f !in bins[i].funcs
  {
    if f in bins[i].funcs {
      ListedTwice(bins, j, i, f);
    }
  }

  lemma RenderAt(out: seq<Chunk>, chunks: seq<Bin>, i: nat, numImports: nat, j: nat)
    requires i <= |chunks| && j < |out| && RendersAll(out, chunks[..i], numImports)
    ensures j < i && Renders(out[j], chunks[j], numImports)
  {
    assert Renders(out[j], chunks[..i][j], numImports);
  }

  lemma MapGrows(out: seq<Chunk>, m0: map<nat, nat>, m: map<nat, nat>, c: Chunk)
    requires Maps(out, m0)
    requires forall j: nat, fi: nat :: fi in c.funcIdxs ==> !Listed(out, j, fi)
    requires forall fi :: fi in m <==> fi in m0 || fi in c.funcIdxs
    requires forall fi :: fi in m ==> m[fi] == if fi in c.funcIdxs then |out| else m0[fi]
    ensures Maps(out + [c], m)
  {
    var r := out + [c];
    forall fi | fi in m
      ensures Listed(r, m[fi], fi)
    {
      if fi !in c.funcIdxs {
        assert Listed(out, m0[fi], fi);
      }
    }
    forall j: nat, fi: nat | Listed(r, j, fi)
      ensures fi in m && m[fi] == j
    {
      if j < |out| {
        assert Listed(out, j, fi);
      }
    }
  }

  lemma RenderGrows(out: seq<Chunk>, bins: seq<Bin>, c: Chunk, numImports: nat)
    requires |out| < |bins| && RendersAll(out, bins[..|out|], numImports)
    requires Renders(c, bins[|out|], numImports) && Ascending(c.funcIdxs)
    ensures RendersAll(out + [c], bins[..|out| + 1], numImports)
  {
    var r, q := out + [c], bins[..|out| + 1];
    forall j | 0 <= j < |q|
      ensures Renders(r[j], q[j], numImports) && Ascending(r[j].funcIdxs)
    {
      if j < |out| {
        assert Renders(out[j], bins[..|out|][j], numImports);
      }
    }
  }

  lemma PlanGrows(out: seq<Chunk>, m0: map<nat, nat>, m: map<nat, nat>, bins: seq<Bin>, c: Chunk, numImports: nat)
    requires |out| < |bins| && forall f :: Count(bins, f) <= 1
    requires PlanOf(Plan(out, m0), bins[..|out|], numImports)
    requires Renders(c, bins[|out|], numImports) && Ascending(c.funcIdxs)
    requires forall fi :: fi in m <==> fi in m0 || fi in c.funcIdxs
    requires forall fi :: fi in m ==> m[fi] == if fi in c.funcIdxs then |out| else m0[fi]
    ensures PlanOf(Plan(out + [c], m), bins[..|out| + 1], numImports)
  {
    forall j: nat, fi: nat | fi in c.funcIdxs
      ensures !Listed(out, j, fi)
    {
      if j < |out| {
        RenderAt(out, bins, |out|, numImports, j);
        ChunksDiffer(out[j], c, bins, j, |out|, numImports, fi);
      }
    }
    MapGrows(out, m0, m, c);
    RenderGrows(out, bins, c, numImports);
  }

  method FinishPlan(chunks: seq<Bin>, numImports: nat) returns (plan: Plan)
    requires forall f :: Count(chunks, f) <= 1
    ensures PlanOf(plan, chunks, numImports)
  {
    var out: seq<Chunk> := [];
    var m: map<nat, nat> := map[];
    for i := 0 to |chunks|
      invariant |out| == i && PlanOf(Plan(out, m), chunks[..i], numImports)
    {
      EachOnce(chunks, i);
      var c;
      ghost var m0 := m;
      c, m := RenderChunk(chunks[i], numImports, i, m);
      PlanGrows(out, m0, m, chunks, c, numImports);
      out := out + [c];
    }
    plan := Plan(out, m);
    assert chunks[..|chunks|] == chunks;
  }

  lemma EachOnce(chunks: seq<Bin>, i: nat)
    requires i < |chunks| && forall f :: Count(chunks, f) <= 1
    ensures NoDup(chunks[i].funcs)
  {
    var fs := chunks[i].funcs;
    forall a, b | 0 <= a < b < |fs|
      ensures fs[a] != fs[b]
    {
      Splice(chunks, i);
      assert fs == fs[..b] + [fs[b]] + fs[b + 1..];
      assert fs[..b][a] == fs[a];
      assert multiset(fs)[fs[b]] <= 1;
    }
  }

  // ----- the plan -----

  /** Local function `f` is in chunk `i`. */
  ghost predicate Owns(plan: Plan, numImports: nat, i: nat, f: nat) {
    Listed(plan.chunks, i, numImports + f)
  }

  ghost predicate Planned(plan: Plan, numImports: nat, f: nat) {
    exists i: nat :: Owns(plan, numImports, i, f)
  }

  /** The functions below `n` that chunk `i` lists. */
  ghost function Members(plan: Plan, numImports: nat, i: nat, n: nat): set<nat> {
    set f | f in Upto(n) && Owns(plan, numImports, i, f)
  }

  ghost function PlannedSet(plan: Plan, numImports: nat, n: nat): set<nat> {
    set f | f in Upto(n) && Planned(plan, numImports, f)
  }

  /** Mutually recursive functions share a chunk; a component is planned as a whole. */
  ghost predicate NeverSplits(g: Graph, plan: Plan, numImports: nat) {
    forall i: nat, f: nat, h: nat ::
      Owns(plan, numImports, i, f) && h < |g| && Mutual(g, f, h) ==> Owns(plan, numImports, i, h)
  }

  /** A function is left out only if a function of its component is dead, and taken
      only if one is live. */
  ghost predicate PlansLive(g: Graph, plan: Plan, numImports: nat, reachable: Option<set<nat>>) {
    forall f: nat :: f < |g| ==>
      if Planned(plan, numImports, f)
      then reachable.None? || exists h: nat :: h in reachable.value && Mutual(g, f, h)
      else reachable.Some? && exists h: nat :: h < |g| && h !in reachable.value && Mutual(g, f, h)
  }

  /** A chunk within the limit, or a single component. */
  ghost predicate LimitOk(g: Graph, plan: Plan, numImports: nat, limit: nat, i: nat) {
    (i < |plan.chunks| && plan.chunks[i].bytes > limit) ==>
      forall f: nat, h: nat :: Owns(plan, numImports, i, f) && Owns(plan, numImports, i, h) ==> Mutual(g, f, h)
  }

  ghost function TotalBytes(chunks: seq<Chunk>): nat {
    if chunks == [] then 0 else TotalBytes(chunks[..|chunks| - 1]) + chunks[|chunks| - 1].bytes
  }

  ghost predicate GoodPlan(g: Graph, size: seq<nat>, plan: Plan, numImports: nat, limit: nat,
                           reachable: Option<set<nat>>) {
    && Maps(plan.chunks, plan.funcToChunk)
    && (forall i :: 0 <= i < |plan.chunks| ==> Ascending(plan.chunks[i].funcIdxs))
    && (forall fi :: fi in plan.funcToChunk ==> numImports <= fi < numImports + |g|)
    && NeverSplits(g, plan, numImports)
    && PlansLive(g, plan, numImports, reachable)
    && (forall i ::
          0 <= i < |plan.chunks| ==> plan.chunks[i].bytes == SetBytes(Members(plan, numImports, i, |g|), |g|, size))
    && TotalBytes(plan.chunks) == SetBytes(PlannedSet(plan, numImports, |g|), |g|, size)
    && (forall i: nat :: LimitOk(g, plan, numImports, limit, i))
    && (forall i, j :: 0 <= i < j < |plan.chunks| ==> plan.chunks[i].bytes + plan.chunks[j].bytes > limit)
    && (|plan.chunks| >= 2 ==> |plan.chunks| * limit < 2 * TotalBytes(plan.chunks))
  }

  /** What the steps before the plan have established. */
  ghost predicate Prepared(g: Graph, size: seq<nat>, sccs: seq<seq<nat>>, reachable: Option<set<nat>>,
                           bins: seq<Bin>, chunks: seq<Bin>, limit: nat) {
    && WellFormed(g) && |size| == |g| && Components(g, sccs)
    && (forall v :: 0 <= v < |g| ==> InSome(sccs, |sccs|, v))
    && multiset(bins) == multiset(KeptBins(sccs, size, reachable))
    && Packed(bins, |bins|, chunks, limit) && Sized(chunks, size)
  }

  /** The functions of every bin are planned in the chunk that the bin went to. */
  ghost predicate PlacedAt(plan: Plan, numImports: nat, bins: seq<Bin>, at: seq<nat>)
    requires |at| == |bins|
  {
    && |plan.chunks| == Opened(at)
    && forall k, f :: 0 <= k < |bins| && f in bins[k].funcs ==>
         numImports + f in plan.funcToChunk && plan.funcToChunk[numImports + f] == at[k]
  }

  /** The kept components, biggest first, went where first fit sends them. */
  ghost predicate PlannedFirstFit(g: Graph, size: seq<nat>, reachable: Option<set<nat>>, plan: Plan, numImports: nat,
                                  limit: nat, sccs: seq<seq<nat>>, at: seq<nat>) {
    && Components(g, sccs) && (forall v :: 0 <= v < |g| ==> InSome(sccs, |sccs|, v))
    && var bins := SortStable(KeptBins(sccs, size, reachable));
    |at| == |bins| && FitsFirst(bins, at, limit) && PlacedAt(plan, numImports, bins, at)
  }

  method PlanLinknamePackagesWith(numImports: nat, bodies: seq<nat>, chunkBytes: int,
                                  reachable: Option<set<nat>>, callees: Graph)
    returns (plan: Plan, ghost sccs: seq<seq<nat>>, ghost at: seq<nat>)
    requires WellFormed(callees) && |bodies| == |callees|
    ensures var limit := if chunkBytes <= 0 then 1024 * 1024 else chunkBytes;
            && GoodPlan(callees, bodies, plan, numImports, limit, reachable)
            && PlannedFirstFit(callees, bodies, reachable, plan, numImports, limit, sccs, at)
  {
    var limit := chunkBytes;
    if limit <= 0 {
      limit := 1024 * 1024;
    }
    var components := Tarjan.TarjanSCC(callees);
    sccs := components;
    forall i | 0 <= i < |sccs|
      ensures IsClass(callees, sccs[i])
    {
    }
    var bins0 := MakeBins(components, bodies, reachable);
    var bins := SortStable(bins0);
    SortedSized(sccs, bodies, reachable, bins);
    var chunks;
    chunks, at := Pack(bins, limit, bodies);
    CountAtMostOnce(callees, bodies, sccs, reachable, bins, chunks, limit);
    plan := FinishPlan(chunks, numImports);
    PlanIsGood(callees, bodies, sccs, reachable, bins, chunks, limit, plan, numImports);
    BinsPlaced(plan, numImports, bins, at, chunks);
  }

  lemma BinsPlaced(plan: Plan, numImports: nat, bins: seq<Bin>, at: seq<nat>, chunks: seq<Bin>)
    requires |at| == |bins| && HoldWhatCame(bins, at, chunks) && PlanOf(plan, chunks, numImports)
    ensures PlacedAt(plan, numImports, bins, at)
  {
    forall k, f | 0 <= k < |bins| && f in bins[k].funcs
      ensures numImports + f in plan.funcToChunk && plan.funcToChunk[numImports + f] == at[k]
    {
      InItsChunk(bins, at, k, f);
      assert Renders(plan.chunks[at[k]], chunks[at[k]], numImports);
      assert Listed(plan.chunks, at[k], numImports + f);
    }
  }

  lemma SortedSized(sccs: seq<seq<nat>>, size: seq<nat>, reachable: Option<set<nat>>, bins: seq<Bin>)
    requires multiset(bins) == multiset(KeptBins(sccs, size, reachable))
    ensures Sized(bins, size)
  {
    KeptBinsSized(sccs, size, reachable);
    forall i | 0 <= i < |bins|
      ensures bins[i].bytes == SumSizes(bins[i].funcs, size)
    {
      assert bins[i] in multiset(bins);
      assert bins[i] in KeptBins(sccs, size, reachable);
    }
  }

  lemma ChunkCounts(g: Graph, size: seq<nat>, sccs: seq<seq<nat>>, reachable: Option<set<nat>>,
                    bins: seq<Bin>, chunks: seq<Bin>, limit: nat, f: nat)
    requires Prepared(g, size, sccs, reachable, bins, chunks, limit)
    ensures Count(chunks, f) == if InKept(sccs, reachable, f) then 1 else 0
  {
    assert bins[..|bins|] == bins;
    Permute(bins, KeptBins(sccs, size, reachable));
    KeptBinsCount(sccs, size, reachable, f);
  }

  lemma CountAtMostOnce(g: Graph, size: seq<nat>, sccs: seq<seq<nat>>, reachable: Option<set<nat>>,
                        bins: seq<Bin>, chunks: seq<Bin>, limit: nat)
    requires Prepared(g, size, sccs, reachable, bins, chunks, limit)
    ensures forall f :: Count(chunks, f) <= 1
  {
    forall f
      ensures Count(chunks, f) <= 1
    {
      ChunkCounts(g, size, sccs, reachable, bins, chunks, limit, f);
    }
  }

  lemma OwnsIs(plan: Plan, chunks: seq<Bin>, numImports: nat, i: nat, f: nat)
    requires RendersAll(plan.chunks, chunks, numImports)
    ensures Owns(plan, numImports, i, f) <==> i < |chunks| && f in chunks[i].funcs
  {
    if i < |chunks| {
      assert Renders(plan.chunks[i], chunks[i], numImports);
      assert numImports + f in plan.chunks[i].funcIdxs <==> f in chunks[i].funcs;
    }
  }

  lemma PlannedIs(g: Graph, size: seq<nat>, sccs: seq<seq<nat>>, reachable: Option<set<nat>>,
                  bins: seq<Bin>, chunks: seq<Bin>, limit: nat, plan: Plan, numImports: nat, f: nat)
    requires Prepared(g, size, sccs, reachable, bins, chunks, limit)
    requires RendersAll(plan.chunks, chunks, numImports)
    ensures Planned(plan, numImports, f) <==> InKept(sccs, reachable, f)
    ensures Planned(plan, numImports, f) ==> f < |g|
  {
    ChunkCounts(g, size, sccs, reachable, bins, chunks, limit, f);
    if Planned(plan, numImports, f) {
      var i: nat :| Owns(plan, numImports, i, f);
      OwnsIs(plan, chunks, numImports, i, f);
      Packing.Listed(chunks, i, f);
    }
    if InKept(sccs, reachable, f) {
      var s :| 0 <= s < |sccs| && f in sccs[s] && Keep(sccs[s], reachable);
      assert IsClass(g, sccs[s]);
      var i := Source(chunks, f);
      OwnsIs(plan, chunks, numImports, i, f);
    }
  }

  /** The bin of a kept component is among the bins. */
  lemma {:induction false} KeptInBins(sccs: seq<seq<nat>>, size: seq<nat>, reachable: Option<set<nat>>, s: nat)
    requires s < |sccs| && Keep(sccs[s], reachable)
    ensures Bin(sccs[s], SumSizes(sccs[s], size)) in KeptBins(sccs, size, reachable)
  {
    if s < |sccs| - 1 {
      KeptInBins(sccs[..|sccs| - 1], size, reachable, s);
    }
  }

  /** All of a kept component is in one chunk. */
  lemma ComponentWhole(g: Graph, size: seq<nat>, sccs: seq<seq<nat>>, reachable: Option<set<nat>>,
                       bins: seq<Bin>, chunks: seq<Bin>, limit: nat, s: nat) returns (c: nat)
    requires Prepared(g, size, sccs, reachable, bins, chunks, limit) && s < |sccs| && Keep(sccs[s], reachable)
    ensures c < |chunks| && forall f :: f in sccs[s] ==> f in chunks[c].funcs
  {
    var b := Bin(sccs[s], SumSizes(sccs[s], size));
    KeptInBins(sccs, size, reachable, s);
    assert b in multiset(bins);
    var k :| 0 <= k < |bins| && bins[k] == b;
    assert Whole(bins[k], chunks);
    c :| 0 <= c < |chunks| && Inside(bins[k], chunks[c]);
    forall f | f in sccs[s]
      ensures f in chunks[c].funcs
    {
      assert multiset(b.funcs)[f] >= 1;
    }
  }

  lemma PlanNeverSplits(g: Graph, size: seq<nat>, sccs: seq<seq<nat>>, reachable: Option<set<nat>>,
                        bins: seq<Bin>, chunks: seq<Bin>, limit: nat, plan: Plan, numImports: nat)
    requires Prepared(g, size, sccs, reachable, bins, chunks, limit)
    requires RendersAll(plan.chunks, chunks, numImports)
    ensures NeverSplits(g, plan, numImports)
  {
    forall i: nat, f: nat, h: nat | Owns(plan, numImports, i, f) && h < |g| && Mutual(g, f, h)
      ensures Owns(plan, numImports, i, h)
    {
      PlannedIs(g, size, sccs, reachable, bins, chunks, limit, plan, numImports, f);
      var s :| 0 <= s < |sccs| && f in sccs[s] && Keep(sccs[s], reachable);
      assert IsClass(g, sccs[s]);
      var c := ComponentWhole(g, size, sccs, reachable, bins, chunks, limit, s);
      OwnsIs(plan, chunks, numImports, i, f);
      OwnsIs(plan, chunks, numImports, i, h);
      ChunkCounts(g, size, sccs, reachable, bins, chunks, limit, f);
      if c < i {
        NotInBoth(chunks, c, i, f);
      } else if i < c {
        NotInBoth(chunks, i, c, f);
      }
    }
  }

  lemma PlanIsLive(g: Graph, size: seq<nat>, sccs: seq<seq<nat>>, reachable: Option<set<nat>>,
                   bins: seq<Bin>, chunks: seq<Bin>, limit: nat, plan: Plan, numImports: nat)
    requires Prepared(g, size, sccs, reachable, bins, chunks, limit)
    requires RendersAll(plan.chunks, chunks, numImports)
    ensures PlansLive(g, plan, numImports, reachable)
  {
    forall f: nat | f < |g|
      ensures if Planned(plan, numImports, f)
              then reachable.None? || exists h: nat :: h in reachable.value && Mutual(g, f, h)
              else reachable.Some? && exists h: nat :: h < |g| && h !in reachable.value && Mutual(g, f, h)
    {
      PlannedIs(g, size, sccs, reachable, bins, chunks, limit, plan, numImports, f);
      assert InSome(sccs, |sccs|, f);
      var s :| 0 <= s < |sccs| && f in sccs[s] && (InKept(sccs, reachable, f) ==> Keep(sccs[s], reachable));
      assert IsClass(g, sccs[s]);
      assert sccs[s][0] in sccs[s] && Mutual(g, f, sccs[s][0]);
    }
  }

  lemma PlanLimit(g: Graph, size: seq<nat>, sccs: seq<seq<nat>>, reachable: Option<set<nat>>,
                  bins: seq<Bin>, chunks: seq<Bin>, limit: nat, plan: Plan, numImports: nat, i: nat)
    requires Prepared(g, size, sccs, reachable, bins, chunks, limit)
    requires RendersAll(plan.chunks, chunks, numImports)
    ensures LimitOk(g, plan, numImports, limit, i)
  {
    if i < |plan.chunks| && plan.chunks[i].bytes > limit {
      assert Renders(plan.chunks[i], chunks[i], numImports);
      assert FitsOrSingle(chunks[i], bins, limit);
      assert chunks[i] in multiset(bins);
      var s := BinIsComponent(sccs, size, reachable, chunks[i]);
      assert IsClass(g, sccs[s]);
      forall f: nat, h: nat | Owns(plan, numImports, i, f) && Owns(plan, numImports, i, h)
        ensures Mutual(g, f, h)
      {
        OwnsIs(plan, chunks, numImports, i, f);
        OwnsIs(plan, chunks, numImports, i, h);
      }
    }
  }

  ghost function AllFuncs(bins: seq<Bin>): set<nat> {
    if bins == [] then {} else AllFuncs(bins[..|bins| - 1]) + AsSet(bins[|bins| - 1].funcs)
  }

  lemma {:induction false} AllFuncsCount(bins: seq<Bin>, f: nat)
    ensures f in AllFuncs(bins) <==> Count(bins, f) >= 1
  {
    if bins != [] {
      AllFuncsCount(bins[..|bins| - 1], f);
    }
  }

  /** The bytes of disjoint bins are the bytes of the functions they hold. */
  lemma {:induction false} BytesOfAll(bins: seq<Bin>, n: nat, size: seq<nat>)
    requires Sized(bins, size) && forall f: nat :: Count(bins, f) <= 1
    requires forall f: nat :: Count(bins, f) >= 1 ==> f < n
    ensures Bytes(bins) == SetBytes(AllFuncs(bins), n, size)
  {
    if bins == [] {
      SetBytesOne(0, n, size);
    } else {
      var k := |bins| - 1;
      var front, last := bins[..k], bins[k];
      forall f: nat
        ensures Count(front, f) + multiset(last.funcs)[f] == Count(bins, f)
      {
      }
      BytesOfAll(front, n, size);
      EachOnce(bins, k);
      forall j | 0 <= j < |last.funcs|
        ensures last.funcs[j] < n
      {
        assert multiset(last.funcs)[last.funcs[j]] >= 1;
      }
      SumIsSetBytes(last.funcs, n, size);
      forall f | f in AllFuncs(front)
        ensures f !in last.funcs
      {
        AllFuncsCount(front, f);
      }
      SetBytesUnion(AllFuncs(front), AsSet(last.funcs), n, size);
    }
  }

  lemma ChunkBytes(g: Graph, size: seq<nat>, sccs: seq<seq<nat>>, reachable: Option<set<nat>>,
                   bins: seq<Bin>, chunks: seq<Bin>, limit: nat, plan: Plan, numImports: nat, i: nat)
    requires Prepared(g, size, sccs, reachable, bins, chunks, limit)
    requires RendersAll(plan.chunks, chunks, numImports) && i < |plan.chunks|
    ensures plan.chunks[i].bytes == SetBytes(Members(plan, numImports, i, |g|), |g|, size)
  {
    CountAtMostOnce(g, size, sccs, reachable, bins, chunks, limit);
    EachOnce(chunks, i);
    assert Renders(plan.chunks[i], chunks[i], numImports);
    var fs := chunks[i].funcs;
    forall f: nat
      ensures f in fs <==> f in Members(plan, numImports, i, |g|)
    {
      OwnsIs(plan, chunks, numImports, i, f);
      PlannedIs(g, size, sccs, reachable, bins, chunks, limit, plan, numImports, f);
    }
    assert AsSet(fs) == Members(plan, numImports, i, |g|);
    forall j | 0 <= j < |fs|
      ensures fs[j] < |g|
    {
      assert fs[j] in Members(plan, numImports, i, |g|);
    }
    SumIsSetBytes(fs, |g|, size);
  }

  lemma {:induction false} SameTotal(out: seq<Chunk>, chunks: seq<Bin>)
    requires |out| == |chunks| && forall i :: 0 <= i < |out| ==> out[i].bytes == chunks[i].bytes
    ensures TotalBytes(out) == Bytes(chunks)
  {
    if out != [] {
      SameTotal(out[..|out| - 1], chunks[..|out| - 1]);
    }
  }

  lemma PlanTotal(g: Graph, size: seq<nat>, sccs: seq<seq<nat>>, reachable: Option<set<nat>>,
                  bins: seq<Bin>, chunks: seq<Bin>, limit: nat, plan: Plan, numImports: nat)
    requires Prepared(g, size, sccs, reachable, bins, chunks, limit)
    requires RendersAll(plan.chunks, chunks, numImports)
    ensures TotalBytes(plan.chunks) == SetBytes(PlannedSet(plan, numImports, |g|), |g|, size)
  {
    CountAtMostOnce(g, size, sccs, reachable, bins, chunks, limit);
    forall f: nat
      ensures Count(chunks, f) >= 1 ==> f < |g|
      ensures f in AllFuncs(chunks) <==> f in PlannedSet(plan, numImports, |g|)
    {
      AllFuncsCount(chunks, f);
      ChunkCounts(g, size, sccs, reachable, bins, chunks, limit, f);
      PlannedIs(g, size, sccs, reachable, bins, chunks, limit, plan, numImports, f);
    }
    assert AllFuncs(chunks) == PlannedSet(plan, numImports, |g|);
    BytesOfAll(chunks, |g|, size);
    forall i | 0 <= i < |chunks|
      ensures plan.chunks[i].bytes == chunks[i].bytes
    {
      assert Renders(plan.chunks[i], chunks[i], numImports);
    }
    SameTotal(plan.chunks, chunks);
  }

  lemma PlanSizes(g: Graph, size: seq<nat>, sccs: seq<seq<nat>>, reachable: Option<set<nat>>,
                  bins: seq<Bin>, chunks: seq<Bin>, limit: nat, plan: Plan, numImports: nat)
    requires Prepared(g, size, sccs, reachable, bins, chunks, limit)
    requires RendersAll(plan.chunks, chunks, numImports)
    ensures forall i, j :: 0 <= i < j < |plan.chunks| ==> plan.chunks[i].bytes + plan.chunks[j].bytes > limit
    ensures |plan.chunks| >= 2 ==> |plan.chunks| * limit < 2 * TotalBytes(plan.chunks)
  {
    forall i | 0 <= i < |chunks|
      ensures plan.chunks[i].bytes == chunks[i].bytes
    {
      assert Renders(plan.chunks[i], chunks[i], numImports);
    }
    SameTotal(plan.chunks, chunks);
    if |chunks| >= 2 {
      ChunkCount(chunks, limit);
    }
  }

  lemma PlanIsGood(g: Graph, size: seq<nat>, sccs: seq<seq<nat>>, reachable: Option<set<nat>>,
                   bins: seq<Bin>, chunks: seq<Bin>, limit: nat, plan: Plan, numImports: nat)
    requires Prepared(g, size, sccs, reachable, bins, chunks, limit) && PlanOf(plan, chunks, numImports)
    ensures GoodPlan(g, size, plan, numImports, limit, reachable)
  {
    PlanNeverSplits(g, size, sccs, reachable, bins, chunks, limit, plan, numImports);
    PlanIsLive(g, size, sccs, reachable, bins, chunks, limit, plan, numImports);
    PlanTotal(g, size, sccs, reachable, bins, chunks, limit, plan, numImports);
    PlanSizes(g, size, sccs, reachable, bins, chunks, limit, plan, numImports);
    forall i: nat
      ensures LimitOk(g, plan, numImports, limit, i)
    {
      PlanLimit(g, size, sccs, reachable, bins, chunks, limit, plan, numImports, i);
    }
    PlanContents(g, size, sccs, reachable, bins, chunks, limit, plan, numImports);
  }

  lemma PlanContents(g: Graph, size: seq<nat>, sccs: seq<seq<nat>>, reachable: Option<set<nat>>,
                     bins: seq<Bin>, chunks: seq<Bin>, limit: nat, plan: Plan, numImports: nat)
    requires Prepared(g, size, sccs, reachable, bins, chunks, limit) && PlanOf(plan, chunks, numImports)
    ensures forall i :: 0 <= i < |plan.chunks| ==>
              plan.chunks[i].bytes == SetBytes(Members(plan, numImports, i, |g|), |g|, size)
                && Ascending(plan.chunks[i].funcIdxs)
    ensures forall fi :: fi in plan.funcToChunk ==> numImports <= fi < numImports + |g|
  {
    forall i | 0 <= i < |plan.chunks|
      ensures plan.chunks[i].bytes == SetBytes(Members(plan, numImports, i, |g|), |g|, size)
              && Ascending(plan.chunks[i].funcIdxs)
    {
      ChunkBytes(g, size, sccs, reachable, bins, chunks, limit, plan, numImports, i);
      assert Renders(plan.chunks[i], chunks[i], numImports);
    }
    forall fi | fi in plan.funcToChunk
      ensures numImports <= fi < numImports + |g|
    {
      var i := plan.funcToChunk[fi];
      assert Listed(plan.chunks, i, fi) && Renders(plan.chunks[i], chunks[i], numImports);
      assert Owns(plan, numImports, i, fi - numImports);
      PlannedIs(g, size, sccs, reachable, bins, chunks, limit, plan, numImports, fi - numImports);
    }
  }

  /** With the reachability result as the filter, the plan holds exactly the live functions. */
  lemma PlansExactlyLive(g: Graph, size: seq<nat>, plan: Plan, numImports: nat, limit: nat,
                         ep: Reachability.EntryPoints, entryExports: Option<set<string>>, reachable: set<nat>, f: nat)
    requires GoodPlan(g, size, plan, numImports, limit, Some(reachable)) && f < |g|
    requires forall d: nat :: d in reachable <==> Reachability.Live(g, ep, entryExports, d)
    ensures Planned(plan, numImports, f) <==> f in reachable
  {
    if Planned(plan, numImports, f) {
      var h: nat :| h in reachable && Mutual(g, f, h);
      Reachability.LiveUniform(g, ep, entryExports, f, h);
    } else {
      var h: nat :| h < |g| && h !in reachable && Mutual(g, f, h);
      Reachability.LiveUniform(g, ep, entryExports, f, h);
    }
  }
}
