/** Strongly connected components of the call graph, with an explicit stack of
    depth-first frames. */
module Tarjan {
  import opened CallGraph
  import opened TarjanInvariant

  class SccFinder {
    const g: Graph
    const onStack: array<bool>
    const indices: array<int>
    const lowlinks: array<int>
    var indexCounter: nat
    var stack: seq<nat>
    var sccs: seq<seq<nat>>
    /** The state of the search as a value; `st.dfs` are the frames of the visit. */
    ghost var st: State

    ghost predicate Buffers()
      reads this, onStack, indices, lowlinks
    {
      && onStack.Length == indices.Length == lowlinks.Length == |g|
      && indices != lowlinks
      && WellFormed(g)
      && st.num == indices[..] && st.low == lowlinks[..] && st.on == onStack[..]
      && st.cnt == indexCounter && st.stack == stack && st.sccs == sccs
    }

    constructor (g: Graph)
      requires WellFormed(g)
      ensures this.g == g && Buffers() && fresh(onStack) && fresh(indices) && fresh(lowlinks)
      ensures st.cnt == 0 && st.stack == [] && st.sccs == [] && st.dfs == []
      ensures forall v :: 0 <= v < |g| ==> st.num[v] == -1 && !st.on[v]
    {
      this.g := g;
      onStack := new bool[|g|](_ => false);
      indices := new int[|g|](_ => -1);
      lowlinks := new int[|g|](_ => 0);
      indexCounter := 0;
      stack := [];
      sccs := [];
      new;
      st := State(0, indices[..], lowlinks[..], onStack[..], [], [], []);
    }

    /** First visit of `v`: number it and put it on the stack. */
    method Number(v: nat)
      requires Buffers() && v < |g| && Sizes(g, st)
      modifies this, onStack, indices, lowlinks
      ensures Buffers() && st == Enter(g, old(st), v)
    {
      indices[v] := indexCounter;
      lowlinks[v] := indexCounter;
      indexCounter := indexCounter + 1;
      stack := stack + [v];
      onStack[v] := true;
      st := Enter(g, st, v);
    }

    /** Go through the callees of the top frame until one is unvisited; a frame for
        it is then pushed. */
    method Scan(dfs0: seq<Frame>) returns (dfs: seq<Frame>, progressed: bool)
      requires Buffers() && dfs0 != [] && st.dfs == dfs0 && Good(g, st)
      modifies this`st, lowlinks
      ensures Buffers() && st.num == old(st.num)
      ensures !progressed ==> st.dfs == dfs && |dfs| == |dfs0| && Good(g, st) && Exhausted(g, st)
      ensures progressed ==> Waiting(dfs)
    {
      dfs := dfs0;
      var t := |dfs| - 1;
      var v := dfs[t].v;
      while dfs[t].i < |g[v]|
        invariant Buffers() && st.num == old(st.num)
        invariant |dfs| == t + 1 && dfs[t].v == v && v < |g|
        invariant st.dfs == dfs && Good(g, st)
        decreases |g[v]| - dfs[t].i
      {
        var w := g[v][dfs[t].i];
        dfs := dfs[t := dfs[t].(i := dfs[t].i + 1)];
        if indices[w] == -1 {
          EnterKeeps(g, st, w);
          st := Skip(st);
          dfs := dfs + [Frame(w, 0, false)];
          return dfs, true;
        }
        LookKeeps(g, st, w);
        if onStack[w] {
          if indices[w] < lowlinks[v] {
            lowlinks[v] := indices[w];
          }
        }
        st := Look(g, st, w);
      }
      progressed := false;
    }

    /** The top frame's vertex is new, and numbering it gives a good state. */
    ghost predicate Waiting(dfs: seq<Frame>)
      reads this
    {
      && dfs != [] && st.dfs == dfs[..|dfs| - 1]
      && var w := dfs[|dfs| - 1];
      && !w.init && w.i == 0 && w.v < |g| && Sizes(g, st) && st.num[w.v] == -1
      && Good(g, Enter(g, st, w.v))
    }

    ghost predicate Ready(dfs: seq<Frame>)
      reads this
    {
      if dfs == [] || dfs[|dfs| - 1].init then st.dfs == dfs && Good(g, st) else Waiting(dfs)
    }

    /** Pop the stack down to `v` into a new component. */
    method PopComponent(v: nat, ghost at: nat)
      requires Buffers() && Sizes(g, st) && TopOk(g, st) && st.dfs != []
      requires at < |stack| && stack[at] == v && forall i :: at < i < |stack| ==> stack[i] != v
      modifies this, onStack
      ensures Buffers() && st == Emit(g, old(st), at)
    {
      var scc: seq<nat> := [];
      ghost var s0, on0 := stack, onStack[..];
      while true
        invariant onStack.Length == |g| && at < |stack| <= |s0| && stack == s0[..|stack|]
        invariant scc == Reverse(s0[|stack|..])
        invariant onStack[..] == Cleared(on0, s0[|stack|..])
        invariant sccs == old(sccs) && indexCounter == old(indexCounter) && st == old(st)
        decreases |stack|
      {
        var n := |stack| - 1;
        var w := stack[n];
        stack := stack[..n];
        ghost var on1 := onStack[..];
        onStack[w] := false;
        scc := scc + [w];
        PopOne(s0, n, on0, on1);
        if w == v {
          assert n == at;
          break;
        }
      }
      sccs := sccs + [scc];
      st := Emit(g, st, at);
    }

    lemma PopOne(s: seq<nat>, n: nat, on0: seq<bool>, on1: seq<bool>)
      requires n < |s| && s[n] < |on0|
      requires on1 == Cleared(on0, s[n + 1..])
      ensures Reverse(s[n..]) == Reverse(s[n + 1..]) + [s[n]]
      ensures on1[s[n] := false] == Cleared(on0, s[n..])
    {
      assert s[n..] == [s[n]] + s[n + 1..];
      assert s[n..][1..] == s[n + 1..];
    }

    /** Depth-first search from an unvisited vertex. */
    method Visit(start: nat)
      requires Buffers() && start < |g| && Good(g, st) && st.dfs == [] && st.stack == [] && st.num[start] == -1
      modifies this, onStack, indices, lowlinks
      ensures Buffers() && Good(g, st) && st.dfs == [] && st.stack == [] && st.num[start] >= 0
      ensures Grown(old(st.num), st.num)
    {
      var dfs := [Frame(start, 0, false)];
      EnterKeeps(g, st, start);
      while |dfs| > 0
        invariant Buffers() && |st.num| == |g|
        invariant Ready(dfs)
        invariant Grown(old(st.num), st.num)
        invariant st.num[start] >= 0 || (|dfs| == 1 && dfs[0] == Frame(start, 0, false))
        decreases Fresh(dfs), |dfs|
      {
        if !dfs[|dfs| - 1].init {
          dfs := Begin(dfs);
        }
        dfs := Explore(dfs);
      }
      EmptyStack();
    }

    /** Number the vertex of a frame just pushed. */
    method Begin(dfs0: seq<Frame>) returns (dfs: seq<Frame>)
      requires Buffers() && Waiting(dfs0)
      modifies this, onStack, indices, lowlinks
      ensures Buffers() && st.dfs == dfs && |dfs| == |dfs0| && Good(g, st)
      ensures Grown(old(st.num), st.num) && st.num[dfs0[|dfs0| - 1].v] >= 0
      ensures Whites(st.num) == old(Whites(st.num)) - 1
    {
      dfs := dfs0;
      var t := |dfs| - 1;
      WhitesEnter(st.num, dfs[t].v, st.cnt);
      Number(dfs[t].v);
      dfs := dfs[t := dfs[t].(init := true)];
      assert dfs == dfs[..t] + [dfs[t]];
    }

    /** One pass over the top frame: descend into an unvisited callee, or finish. */
    method Explore(dfs0: seq<Frame>) returns (dfs: seq<Frame>)
      requires Buffers() && dfs0 != [] && st.dfs == dfs0 && Good(g, st)
      modifies this, onStack, lowlinks
      ensures Buffers() && st.num == old(st.num)
      ensures Ready(dfs)
      ensures Fresh(dfs) < Whites(st.num) || (Fresh(dfs) == Whites(st.num) && |dfs| == |dfs0| - 1)
    {
      var progressed;
      dfs, progressed := Scan(dfs0);
      if !progressed {
        dfs := Close(dfs);
      }
    }

    /** The top frame is finished: emit its component if it is the root of one. */
    method Close(dfs0: seq<Frame>) returns (dfs: seq<Frame>)
      requires Buffers() && st.dfs == dfs0 && Good(g, st) && Exhausted(g, st)
      modifies this, onStack, lowlinks
      ensures Buffers() && st.dfs == dfs && Good(g, st) && |dfs| == |dfs0| - 1 && st.num == old(st.num)
    {
      ghost var st0 := st;
      dfs := dfs0;
      var t := |dfs| - 1;
      var v := dfs[t].v;
      if lowlinks[v] == indices[v] {
        ghost var at := Position(g, st);
        EmitKeeps(g, st, at);
        PopComponent(v, at);
      }
      dfs := dfs[..t];
      if |dfs| > 0 {
        var parent := dfs[t - 1].v;
        if lowlinks[v] < lowlinks[parent] {
          lowlinks[parent] := lowlinks[v];
        }
      }
      CloseCases(st0);
      if st0.low[v] < st0.num[v] {
        st := Leave(g, st0);
      }
    }

    /** Closing a frame: if its low link is below its number, there is a parent; if
        not, the parent's low link is no larger. */
    lemma CloseCases(s: State)
      requires Good(g, s) && Exhausted(g, s)
      ensures s.low[Top(s).v] < s.num[Top(s).v] ==> |s.dfs| > 1 && Good(g, Leave(g, s))
      ensures s.low[Top(s).v] == s.num[Top(s).v] && |s.dfs| > 1 ==> s.low[s.dfs[|s.dfs| - 2].v] <= s.low[Top(s).v]
      ensures s.low[Top(s).v] <= s.num[Top(s).v]
    {
      Open(g, s);
      if s.low[Top(s).v] < s.num[Top(s).v] {
        var k := TopReachesBelow(g, s);
        LeaveKeeps(g, s);
      } else if |s.dfs| > 1 {
        assert s.num[s.dfs[|s.dfs| - 2].v] < s.num[Top(s).v];
      }
    }

    lemma EmptyStack()
      requires Good(g, st) && st.dfs == []
      ensures st.stack == []
    {
      Open(g, st);
      if st.stack != [] {
        var k := HomeOf(g, st, 0);
      }
    }

    /** Unvisited vertices no frame waits for. */
    ghost function Fresh(dfs: seq<Frame>): int
      reads this
    {
      Whites(st.num) - if dfs != [] && !dfs[|dfs| - 1].init then 1 else 0
    }
  }

  /** Vertices once visited stay visited. */
  ghost predicate Grown(a: seq<int>, b: seq<int>) {
    |a| == |b| && forall v :: 0 <= v < |a| && a[v] >= 0 ==> b[v] >= 0
  }

  ghost function Whites(num: seq<int>): nat {
    |set i: nat | i < |num| && num[i] == -1|
  }

  lemma WhitesEnter(num: seq<int>, v: nat, c: nat)
    requires v < |num| && num[v] == -1
    ensures Whites(num[v := c]) == Whites(num) - 1 && Grown(num, num[v := c])
  {
    var a := set i: nat | i < |num| && num[i] == -1;
    var num' := num[v := c];
    var b := set i: nat | i < |num'| && num'[i] == -1;
    assert b == a - {v};
  }

  /** The components of `g`, each once and complete, callees before callers. */
  method TarjanSCC(g: Graph) returns (sccs: seq<seq<nat>>)
    requires WellFormed(g)
    ensures Components(g, sccs)
    ensures forall v :: 0 <= v < |g| ==> InSome(sccs, |sccs|, v)
  {
    var finder := new SccFinder(g);
    StartOk(g, finder.st);
    for v := 0 to |g|
      invariant finder.g == g && finder.Buffers()
      invariant fresh(finder) && fresh(finder.onStack) && fresh(finder.indices) && fresh(finder.lowlinks)
      invariant Good(g, finder.st) && finder.st.dfs == [] && finder.st.stack == []
      invariant forall u :: 0 <= u < v ==> finder.st.num[u] >= 0
    {
      if finder.indices[v] == -1 {
        finder.Visit(v);
      }
    }
    sccs := finder.sccs;
    AllBlack(g, finder.st);
  }

  lemma StartOk(g: Graph, st: State)
    requires WellFormed(g) && st.dfs == [] && st.stack == [] && st.sccs == [] && st.cnt == 0
    requires |st.num| == |st.low| == |st.on| == |g|
    requires forall v :: 0 <= v < |g| ==> st.num[v] == -1 && !st.on[v]
    ensures Good(g, st)
  {
    assert Inv(g, st);
    Seal(g, st);
  }

  lemma AllBlack(g: Graph, st: State)
    requires Good(g, st) && st.stack == [] && Sizes(g, st) && forall v :: 0 <= v < |g| ==> st.num[v] >= 0
    ensures Components(g, st.sccs)
    ensures forall v :: 0 <= v < |g| ==> InSome(st.sccs, |st.sccs|, v)
  {
    Open(g, st);
    forall v | 0 <= v < |g|
      ensures InSome(st.sccs, |st.sccs|, v)
    {
      assert Black(g, st, v);
    }
  }
}
