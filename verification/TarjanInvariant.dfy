/** What the iterative form of Tarjan's algorithm keeps true between its steps. */
module TarjanInvariant {
  import opened CallGraph

  /** A frame of the explicit depth-first stack: a vertex, the next callee to look
      at, and whether the vertex has been numbered. */
  datatype Frame = Frame(v: nat, i: nat, init: bool)

  datatype State = State(
    cnt: nat,
    num: seq<int>,
    low: seq<int>,
    on: seq<bool>,
    stack: seq<nat>,
    sccs: seq<seq<nat>>,
    dfs: seq<Frame>
  )

  ghost predicate Sizes(g: Graph, st: State) {
    && |st.num| == |st.low| == |st.on| == |g|
    && forall v :: 0 <= v < |g| ==> 
         -1 <= st.num[v] < st.cnt && (st.on[v] ==> st.num[v] >= 0) && (st.num[v] >= 0 ==> st.low[v] <= st.num[v])
  }

  ghost predicate StackOk(g: Graph, st: State)
    requires Sizes(g, st)
  {
    && (forall i :: 0 <= i < |st.stack| ==> st.stack[i] < |g| && st.on[st.stack[i]])
    && (forall i, j :: 0 <= i < j < |st.stack| ==> st.num[st.stack[i]] < st.num[st.stack[j]])
    && (forall v :: 0 <= v < |g| && st.on[v] ==> v in st.stack)
  }

  /** Visited, and no longer on the stack. */
  ghost predicate Black(g: Graph, st: State, v: nat)
    requires Sizes(g, st)
  {
    v < |g| && st.num[v] >= 0 && !st.on[v]
  }

  ghost predicate InSome(sccs: seq<seq<nat>>, n: int, v: nat)
    requires 0 <= n <= |sccs|
  {
    exists i :: 0 <= i < n && v in sccs[i]
  }

  /** `c` is a full class of mutual reachability. */
  ghost predicate IsClass(g: Graph, c: seq<nat>) {
    && (forall a :: 0 <= a < |c| ==> c[a] < |g|)
    && (forall x, z: nat :: x in c && z < |g| ==> (z in c <==> Mutual(g, x, z)))
  }

  /** No vertex is listed twice. */
  ghost predicate NoRepeats(sccs: seq<seq<nat>>) {
    forall i, j, a, b ::
      0 <= i < |sccs| && 0 <= j < |sccs| && 0 <= a < |sccs[i]| && 0 <= b < |sccs[j]| && sccs[i][a] == sccs[j][b]
      ==> i == j && a == b
  }

  /** Calls from component `i` lead to it or to a component emitted earlier. */
  ghost predicate CallsBack(g: Graph, sccs: seq<seq<nat>>, i: nat)
    requires i < |sccs|
  {
    forall x, w :: x in sccs[i] && x < |g| && w in g[x] ==> InSome(sccs, i + 1, w)
  }

  /** The components emitted so far. */
  ghost predicate Components(g: Graph, sccs: seq<seq<nat>>) {
    && NoRepeats(sccs)
    && (forall i {:trigger IsClass(g, sccs[i])} :: 0 <= i < |sccs| ==> IsClass(g, sccs[i]))
    && (forall i {:trigger CallsBack(g, sccs, i)} :: 0 <= i < |sccs| ==> CallsBack(g, sccs, i))
  }

  ghost predicate BlackOk(g: Graph, st: State)
    requires Sizes(g, st)
  {
    && Components(g, st.sccs)
    && forall v :: 0 <= v < |g| ==> (Black(g, st, v) <==> InSome(st.sccs, |st.sccs|, v))
  }

  /** The frames form a call path, in numbering order, of vertices on the stack. */
  ghost predicate FramesOk(g: Graph, st: State)
    requires Sizes(g, st)
  {
    && (forall k :: 0 <= k < |st.dfs| ==>
          st.dfs[k].init && st.dfs[k].v < |g| && st.dfs[k].i <= |g[st.dfs[k].v]| && st.on[st.dfs[k].v])
    && (forall j, k :: 0 <= j < k < |st.dfs| ==> st.num[st.dfs[j].v] < st.num[st.dfs[k].v])
    && (forall j, k :: 0 <= j < k < |st.dfs| && k == j + 1 ==> st.dfs[k].v in g[st.dfs[j].v])
  }

  ghost predicate Gray(st: State, u: nat) {
    exists k :: 0 <= k < |st.dfs| && st.dfs[k].v == u
  }

  /** Callees already looked at have been visited. */
  ghost predicate VisitedOk(g: Graph, st: State)
    requires Sizes(g, st) && FramesOk(g, st) && WellFormed(g)
  {
    && (forall u, w :: 0 <= u < |g| && st.on[u] && !Gray(st, u) && w in g[u] ==> st.num[w] >= 0)
    && (forall k, j :: 0 <= k < |st.dfs| && 0 <= j < st.dfs[k].i ==> st.num[g[st.dfs[k].v][j]] >= 0)
  }

  /** Earlier stack entries reach later ones. */
  ghost predicate ReachUp(g: Graph, st: State) {
    forall i, j {:trigger Reach(g, st.stack[i], st.stack[j])} ::
      0 <= i <= j < |st.stack| ==> Reach(g, st.stack[i], st.stack[j])
  }

  /** Every stack entry reaches a frame's vertex numbered no later than itself. */
  ghost predicate ReachHome(g: Graph, st: State)
    requires Sizes(g, st) && StackOk(g, st) && FramesOk(g, st)
  {
    forall i {:trigger HasHome(g, st, st.stack[i])} :: 0 <= i < |st.stack| ==> HasHome(g, st, st.stack[i])
  }

  ghost predicate HasHome(g: Graph, st: State, y: nat)
    requires Sizes(g, st) && FramesOk(g, st) && y < |g|
  {
    exists k :: 0 <= k < |st.dfs| && st.num[st.dfs[k].v] <= st.num[y] && Reach(g, y, st.dfs[k].v)
  }

  /** The low link of a frame is the number of a stack entry its vertex reaches. */
  ghost predicate LowOk(g: Graph, st: State)
    requires Sizes(g, st) && StackOk(g, st) && FramesOk(g, st)
  {
    forall k {:trigger LowWitness(g, st, st.dfs[k].v)} :: 0 <= k < |st.dfs| ==> LowWitness(g, st, st.dfs[k].v)
  }

  ghost predicate LowWitness(g: Graph, st: State, v: nat)
    requires Sizes(g, st) && StackOk(g, st) && v < |g|
  {
    exists i :: 0 <= i < |st.stack| && st.num[st.stack[i]] == st.low[v] && Reach(g, v, st.stack[i])
  }

  /** `u` was visited while frame `k` was the innermost of the present frames. */
  ghost predicate Under(g: Graph, st: State, k: nat, u: nat)
    requires Sizes(g, st) && FramesOk(g, st) && k < |st.dfs| && u < |g|
  {
    st.on[u] && st.num[st.dfs[k].v] <= st.num[u] && (forall j :: k < j < |st.dfs| ==> st.num[u] < st.num[st.dfs[j].v])
  }

  /** The low link of a frame bounds the numbers of the stack entries called from
      under it ... */
  ghost predicate BoundUnder(g: Graph, st: State)
    requires Sizes(g, st) && FramesOk(g, st) && WellFormed(g)
  {
    forall k, u, w ::
      0 <= k < |st.dfs| && 0 <= u < |g| && Under(g, st, k, u) && u != st.dfs[k].v && w in g[u] && st.on[w]
      ==> st.low[st.dfs[k].v] <= st.num[w]
  }

  /** ... and from its own vertex, as far as its callees were looked at. */
  ghost predicate BoundOwn(g: Graph, st: State)
    requires Sizes(g, st) && FramesOk(g, st) && WellFormed(g)
  {
    forall k, j ::
      0 <= k < |st.dfs| && 0 <= j < st.dfs[k].i && st.on[g[st.dfs[k].v][j]]
      ==> st.low[st.dfs[k].v] <= st.num[g[st.dfs[k].v][j]]
  }

  ghost predicate Inv(g: Graph, st: State) {
    && WellFormed(g) && Sizes(g, st) && StackOk(g, st) && BlackOk(g, st) && FramesOk(g, st)
    && VisitedOk(g, st) && ReachUp(g, st) && ReachHome(g, st) && LowOk(g, st)
    && BoundUnder(g, st) && BoundOwn(g, st)
  }

  /** The invariant in parts. */
  datatype Part = Pending | Emitted | Path | Visits | Reaching | Links

  ghost predicate Holds(g: Graph, st: State, part: Part)
    requires WellFormed(g) && Sizes(g, st)
  {
    match part
    case Pending => StackOk(g, st)
    case Emitted => BlackOk(g, st)
    case Path => FramesOk(g, st)
    case Visits => FramesOk(g, st) && VisitedOk(g, st)
    case Reaching => StackOk(g, st) && FramesOk(g, st) && ReachUp(g, st) && ReachHome(g, st)
    case Links => StackOk(g, st) && FramesOk(g, st) && LowOk(g, st) && BoundUnder(g, st) && BoundOwn(g, st)
  }

  /** All parts hold; of these, the code looks at the top frame only. */
  ghost predicate Good(g: Graph, st: State) {
    && WellFormed(g) && Sizes(g, st) && TopOk(g, st)
    && (forall part {:trigger Holds(g, st, part)} :: Holds(g, st, part))
  }

  /** What the code needs to know of the top frame and its parent. */
  ghost predicate TopOk(g: Graph, st: State)
    requires Sizes(g, st)
  {
    && (st.dfs != [] ==>
          var t := Top(st); t.init && t.v < |g| && t.i <= |g[t.v]| && st.num[t.v] >= 0 && t.v in st.stack)
    && (|st.dfs| > 1 ==> st.dfs[|st.dfs| - 2].v < |g|)
    && (forall i :: 0 <= i < |st.stack| ==> st.stack[i] < |g|)
  }

  lemma Open(g: Graph, st: State)
    requires Good(g, st)
    ensures Inv(g, st)
  {
    assert Holds(g, st, Pending) && Holds(g, st, Emitted) && Holds(g, st, Path);
    assert Holds(g, st, Visits) && Holds(g, st, Reaching) && Holds(g, st, Links);
  }

  lemma Seal(g: Graph, st: State)
    requires Inv(g, st)
    ensures Good(g, st)
  {
    forall part
      ensures Holds(g, st, part)
    {
    }
  }

  // ----- the steps -----

  /** Number a white vertex and open its frame. */
  ghost function Enter(g: Graph, st: State, w: nat): State
    requires Sizes(g, st) && w < |g|
  {
    st.(cnt := st.cnt + 1, num := st.num[w := st.cnt], low := st.low[w := st.cnt], on := st.on[w := true],
        stack := st.stack + [w], dfs := st.dfs + [Frame(w, 0, true)])
  }

  ghost function Top(st: State): Frame
    requires st.dfs != []
  {
    st.dfs[|st.dfs| - 1]
  }

  /** Step over the next callee of the top frame. */
  ghost function Skip(st: State): State
    requires st.dfs != []
  {
    var n := |st.dfs| - 1;
    st.(dfs := st.dfs[n := st.dfs[n].(i := st.dfs[n].i + 1)])
  }

  /** Step over a callee that was visited before, keeping the low link. */
  ghost function Look(g: Graph, st: State, w: nat): State
    requires Sizes(g, st) && w < |g| && st.dfs != [] && Top(st).v < |g|
  {
    var v := Top(st).v;
    var st' := Skip(st);
    if st.on[w] && st.num[w] < st.low[v] then st'.(low := st.low[v := st.num[w]]) else st'
  }

  /** Close the top frame without emitting: its vertex stays on the stack. */
  ghost function Leave(g: Graph, st: State): State
    requires Sizes(g, st) && |st.dfs| > 1 && st.dfs[|st.dfs| - 2].v < |g| && Top(st).v < |g|
  {
    var n := |st.dfs| - 1;
    var p := st.dfs[n - 1].v;
    var v := st.dfs[n].v;
    st.(dfs := st.dfs[..n], low := if st.low[v] < st.low[p] then st.low[p := st.low[v]] else st.low)
  }

  ghost function Reverse(s: seq<nat>): (r: seq<nat>)
    ensures |r| == |s| && forall k :: 0 <= k < |s| ==> r[k] == s[|s| - 1 - k]
  {
    if s == [] then [] else Reverse(s[1..]) + [s[0]]
  }

  /** Close the top frame and emit everything from stack position `at` on. */
  ghost function Emit(g: Graph, st: State, at: nat): State
    requires Sizes(g, st) && at < |st.stack| && st.dfs != []
  {
    st.(dfs := st.dfs[..|st.dfs| - 1], stack := st.stack[..at], sccs := st.sccs + [Reverse(st.stack[at..])],
        on := Cleared(st.on, st.stack[at..]))
  }

  ghost function Cleared(on: seq<bool>, s: seq<nat>): (r: seq<bool>)
    ensures |r| == |on| && forall v :: 0 <= v < |on| ==> r[v] == (on[v] && v !in s)
  {
    seq(|on|, v requires 0 <= v < |on| => on[v] && v !in s)
  }

  // ----- Enter -----

  /** Every stack entry reaches the top frame's vertex. */
  lemma AllReachTop(g: Graph, st: State, y: nat)
    requires Sizes(g, st) && StackOk(g, st) && FramesOk(g, st) && ReachUp(g, st) && ReachHome(g, st)
    requires st.dfs != [] && y in st.stack
    ensures Reach(g, y, Top(st).v)
  {
    assert HasHome(g, st, y);
    var k :| 0 <= k < |st.dfs| && st.num[st.dfs[k].v] <= st.num[y] && Reach(g, y, st.dfs[k].v);
    var x, v := st.dfs[k].v, Top(st).v;
    assert x in st.stack && v in st.stack;
    var i :| 0 <= i < |st.stack| && st.stack[i] == x;
    var j :| 0 <= j < |st.stack| && st.stack[j] == v;
    assert i <= j;
    ReachTrans(g, y, x, v);
  }

  /** `w` is the vertex a new frame is opened for. */
  ghost predicate Opens(g: Graph, st: State, w: nat)
    requires Sizes(g, st)
  {
    && w < |g| && st.num[w] == -1
    && if st.dfs == [] then st.stack == []
       else var t := Top(st); t.v < |g| && t.i < |g[t.v]| && g[t.v][t.i] == w
  }

  ghost function Entered(g: Graph, st: State, w: nat): State
    requires Sizes(g, st) && Opens(g, st, w)
  {
    Enter(g, if st.dfs == [] then st else Skip(st), w)
  }

  lemma EnterStack(g: Graph, st: State, w: nat)
    requires Sizes(g, st) && StackOk(g, st) && Opens(g, st, w)
    ensures var r := Entered(g, st, w); Sizes(g, r) && StackOk(g, r)
  {
  }

  /** The old frames keep their vertices; only the former top has moved on. */
  lemma EnterShape(g: Graph, st: State, w: nat)
    requires Sizes(g, st) && Opens(g, st, w)
    ensures var r := Entered(g, st, w);
            && |r.dfs| == |st.dfs| + 1 && r.dfs[|st.dfs|] == Frame(w, 0, true)
            && forall k :: 0 <= k < |st.dfs| ==>
                 r.dfs[k] == if k == |st.dfs| - 1 then st.dfs[k].(i := st.dfs[k].i + 1) else st.dfs[k]
  {
  }

  lemma EnterFrames(g: Graph, st: State, w: nat)
    requires Sizes(g, st) && FramesOk(g, st) && Opens(g, st, w)
    ensures Sizes(g, Entered(g, st, w)) && FramesOk(g, Entered(g, st, w))
  {
    var r := Entered(g, st, w);
    EnterShape(g, st, w);
    forall j, k | 0 <= j < k < |r.dfs|
      ensures r.num[r.dfs[j].v] < r.num[r.dfs[k].v] && (k == j + 1 ==> r.dfs[k].v in g[r.dfs[j].v])
    {
      assert r.dfs[j].v == st.dfs[j].v;
      if k < |st.dfs| {
        assert r.dfs[k].v == st.dfs[k].v;
      }
    }
  }

  lemma EnterBlack(g: Graph, st: State, w: nat)
    requires Sizes(g, st) && BlackOk(g, st) && Opens(g, st, w)
    ensures Sizes(g, Entered(g, st, w)) && BlackOk(g, Entered(g, st, w))
  {
    var r := Entered(g, st, w);
    forall v | 0 <= v < |g|
      ensures Black(g, r, v) <==> InSome(r.sccs, |r.sccs|, v)
    {
      assert Black(g, st, v) <==> InSome(st.sccs, |st.sccs|, v);
    }
  }

  lemma EnterVisited(g: Graph, st: State, w: nat)
    requires WellFormed(g) && Sizes(g, st) && FramesOk(g, st) && VisitedOk(g, st) && Opens(g, st, w)
    requires var r := Entered(g, st, w); Sizes(g, r) && FramesOk(g, r)
    ensures VisitedOk(g, Entered(g, st, w))
  {
    var r := Entered(g, st, w);
    EnterShape(g, st, w);
    forall k, j | 0 <= k < |r.dfs| && 0 <= j < r.dfs[k].i
      ensures r.num[g[r.dfs[k].v][j]] >= 0
    {
      assert k < |st.dfs| && r.dfs[k].v == st.dfs[k].v;
      if j < st.dfs[k].i {
        assert st.num[g[st.dfs[k].v][j]] >= 0;
      }
    }
    forall u, x | 0 <= u < |g| && r.on[u] && !Gray(r, u) && x in g[u]
      ensures r.num[x] >= 0
    {
      assert r.dfs[|st.dfs|].v == w;
      assert forall k :: 0 <= k < |st.dfs| ==> r.dfs[k].v == st.dfs[k].v;
      assert !Gray(st, u);
    }
  }

  lemma EnterReach(g: Graph, st: State, w: nat)
    requires WellFormed(g) && Sizes(g, st) && StackOk(g, st) && FramesOk(g, st)
    requires ReachUp(g, st) && ReachHome(g, st) && Opens(g, st, w)
    ensures ReachUp(g, Entered(g, st, w))
  {
    var s := st.stack + [w];
    forall i, j | 0 <= i <= j < |s|
      ensures Reach(g, s[i], s[j])
    {
      if j == |st.stack| {
        if i == j {
          ReachRefl(g, w);
        } else {
          AllReachTop(g, st, s[i]);
          ReachEdge(g, Top(st).v, w);
          ReachTrans(g, s[i], Top(st).v, w);
        }
      }
    }
  }

  lemma EnterHome(g: Graph, st: State, w: nat)
    requires WellFormed(g) && Sizes(g, st) && StackOk(g, st) && FramesOk(g, st) && ReachHome(g, st) && Opens(g, st, w)
    requires var r := Entered(g, st, w); Sizes(g, r) && StackOk(g, r) && FramesOk(g, r)
    ensures ReachHome(g, Entered(g, st, w))
  {
    var r := Entered(g, st, w);
    EnterShape(g, st, w);
    forall i | 0 <= i < |r.stack|
      ensures HasHome(g, r, r.stack[i])
    {
      if i < |st.stack| {
        var k := HomeOf(g, st, i);
        HomeIs(g, r, r.stack[i], k, st.dfs[k].v);
      } else {
        ReachRefl(g, w);
        HomeIs(g, r, r.stack[i], |st.dfs|, w);
      }
    }
  }

  lemma EnterLow(g: Graph, st: State, w: nat)
    requires WellFormed(g) && Sizes(g, st) && StackOk(g, st) && FramesOk(g, st) && LowOk(g, st) && Opens(g, st, w)
    requires var r := Entered(g, st, w); Sizes(g, r) && StackOk(g, r) && FramesOk(g, r)
    ensures LowOk(g, Entered(g, st, w))
  {
    var r := Entered(g, st, w);
    EnterShape(g, st, w);
    forall k | 0 <= k < |r.dfs|
      ensures LowWitness(g, r, r.dfs[k].v)
    {
      if k < |st.dfs| {
        assert LowWitness(g, st, st.dfs[k].v);
        var i :| 0 <= i < |st.stack| && st.num[st.stack[i]] == st.low[st.dfs[k].v]
          && Reach(g, st.dfs[k].v, st.stack[i]);
        assert r.stack[i] == st.stack[i];
      } else {
        ReachRefl(g, w);
        assert r.stack[|st.stack|] == w;
      }
    }
  }

  lemma EnterUnder(g: Graph, st: State, w: nat, k: nat, u: nat)
    requires Sizes(g, st) && FramesOk(g, st) && Opens(g, st, w) && u < |g| && u != w
    requires var r := Entered(g, st, w); Sizes(g, r) && FramesOk(g, r) && k < |r.dfs| && Under(g, r, k, u)
    ensures k < |st.dfs| && Under(g, st, k, u)
  {
    var r := Entered(g, st, w);
    EnterShape(g, st, w);
    assert r.dfs[k].v == w <==> k == |st.dfs|;
    forall j | k < j < |st.dfs|
      ensures st.num[u] < st.num[st.dfs[j].v]
    {
      assert r.dfs[j].v == st.dfs[j].v;
    }
  }

  lemma EnterBoundUnder(g: Graph, st: State, w: nat)
    requires WellFormed(g) && Sizes(g, st) && FramesOk(g, st) && BoundUnder(g, st) && Opens(g, st, w)
    requires var r := Entered(g, st, w); Sizes(g, r) && FramesOk(g, r)
    ensures BoundUnder(g, Entered(g, st, w))
  {
    var r := Entered(g, st, w);
    EnterShape(g, st, w);
    forall k, u, x | 0 <= k < |r.dfs| && 0 <= u < |g| && Under(g, r, k, u) && u != r.dfs[k].v && x in g[u] && r.on[x]
      ensures r.low[r.dfs[k].v] <= r.num[x]
    {
      assert r.dfs[|st.dfs|].v == w;
      EnterUnder(g, st, w, k, u);
    }
  }

  lemma EnterBoundOwn(g: Graph, st: State, w: nat)
    requires WellFormed(g) && Sizes(g, st) && FramesOk(g, st) && BoundOwn(g, st) && Opens(g, st, w)
    requires var r := Entered(g, st, w); Sizes(g, r) && FramesOk(g, r)
    ensures BoundOwn(g, Entered(g, st, w))
  {
    var r := Entered(g, st, w);
    EnterShape(g, st, w);
    forall k, j | 0 <= k < |r.dfs| && 0 <= j < r.dfs[k].i && r.on[g[r.dfs[k].v][j]]
      ensures r.low[r.dfs[k].v] <= r.num[g[r.dfs[k].v][j]]
    {
      assert k < |st.dfs|;
      assert r.dfs[k].v == st.dfs[k].v;
      if j < st.dfs[k].i {
        assert st.on[g[st.dfs[k].v][j]] ==> st.low[st.dfs[k].v] <= st.num[g[st.dfs[k].v][j]];
      }
    }
  }

  lemma EnterKeeps(g: Graph, st: State, w: nat)
    requires Good(g, st) && Opens(g, st, w)
    ensures Good(g, Entered(g, st, w))
  {
    Open(g, st);
    EnterStack(g, st, w);
    EnterFrames(g, st, w);
    EnterBlack(g, st, w);
    EnterVisited(g, st, w);
    EnterReach(g, st, w);
    EnterHome(g, st, w);
    EnterLow(g, st, w);
    EnterBoundUnder(g, st, w);
    EnterBoundOwn(g, st, w);
    Seal(g, Entered(g, st, w));
  }

  // ----- Look -----

  /** The top frame's next callee is `w`, visited before. */
  ghost predicate Looks(g: Graph, st: State, w: nat)
    requires Sizes(g, st)
  {
    && w < |g| && st.num[w] >= 0 && st.dfs != []
    && var t := Top(st); t.v < |g| && t.i < |g[t.v]| && g[t.v][t.i] == w
  }

  lemma LookShape(g: Graph, st: State, w: nat)
    requires Sizes(g, st) && Looks(g, st, w)
    ensures var r := Look(g, st, w);
            && |r.dfs| == |st.dfs| && r == st.(dfs := r.dfs, low := r.low)
            && (forall k :: 0 <= k < |st.dfs| ==>
                  r.dfs[k] == if k == |st.dfs| - 1 then st.dfs[k].(i := st.dfs[k].i + 1) else st.dfs[k])
            && |r.low| == |st.low| && (forall v :: 0 <= v < |g| ==> r.low[v] <= st.low[v])
            && (forall v ::
                  0 <= v < |g| && r.low[v] != st.low[v] ==> v == Top(st).v && st.on[w] && r.low[v] == st.num[w])
            && (st.on[w] ==> r.low[Top(st).v] <= st.num[w])
  {
  }

  lemma LookFrames(g: Graph, st: State, w: nat)
    requires Sizes(g, st) && StackOk(g, st) && FramesOk(g, st) && Looks(g, st, w)
    ensures var r := Look(g, st, w); Sizes(g, r) && StackOk(g, r) && FramesOk(g, r)
  {
    var r := Look(g, st, w);
    LookShape(g, st, w);
    assert forall k :: 0 <= k < |r.dfs| ==> r.dfs[k].v == st.dfs[k].v;
  }

  lemma LookVisited(g: Graph, st: State, w: nat)
    requires WellFormed(g) && Sizes(g, st) && FramesOk(g, st) && VisitedOk(g, st) && Looks(g, st, w)
    requires var r := Look(g, st, w); Sizes(g, r) && FramesOk(g, r)
    ensures VisitedOk(g, Look(g, st, w))
  {
    var r := Look(g, st, w);
    LookShape(g, st, w);
    assert forall k :: 0 <= k < |r.dfs| ==> r.dfs[k].v == st.dfs[k].v;
    forall k, j | 0 <= k < |r.dfs| && 0 <= j < r.dfs[k].i
      ensures r.num[g[r.dfs[k].v][j]] >= 0
    {
      if j < st.dfs[k].i {
        assert st.num[g[st.dfs[k].v][j]] >= 0;
      }
    }
    forall u, x | 0 <= u < |g| && r.on[u] && !Gray(r, u) && x in g[u]
      ensures r.num[x] >= 0
    {
      assert !Gray(st, u);
    }
  }

  lemma LookReach(g: Graph, st: State, w: nat)
    requires WellFormed(g) && Sizes(g, st) && StackOk(g, st) && FramesOk(g, st) && Looks(g, st, w)
    requires ReachHome(g, st) && LowOk(g, st)
    requires var r := Look(g, st, w); Sizes(g, r) && StackOk(g, r) && FramesOk(g, r)
    ensures ReachHome(g, Look(g, st, w)) && LowOk(g, Look(g, st, w))
  {
    var r := Look(g, st, w);
    LookShape(g, st, w);
    assert forall k :: 0 <= k < |r.dfs| ==> r.dfs[k].v == st.dfs[k].v;
    forall i | 0 <= i < |r.stack|
      ensures HasHome(g, r, r.stack[i])
    {
      assert HasHome(g, st, st.stack[i]);
    }
    forall k | 0 <= k < |r.dfs|
      ensures LowWitness(g, r, r.dfs[k].v)
    {
      assert LowWitness(g, st, st.dfs[k].v);
      if r.low[st.dfs[k].v] != st.low[st.dfs[k].v] {
        ReachEdge(g, st.dfs[k].v, w);
        var i :| 0 <= i < |st.stack| && st.stack[i] == w;
        assert r.num[r.stack[i]] == r.low[r.dfs[k].v];
      }
    }
  }

  lemma LookBoundUnder(g: Graph, st: State, r: State)
    requires WellFormed(g) && Sizes(g, st) && FramesOk(g, st) && Sizes(g, r) && FramesOk(g, r) && BoundUnder(g, st)
    requires r.num == st.num && r.on == st.on && |r.dfs| == |st.dfs|
    requires forall k :: 0 <= k < |r.dfs| ==> r.dfs[k].v == st.dfs[k].v
    requires forall u :: 0 <= u < |g| ==> r.low[u] <= st.low[u]
    ensures BoundUnder(g, r)
  {
    forall k, u, x | 0 <= k < |r.dfs| && 0 <= u < |g| && Under(g, r, k, u) && u != r.dfs[k].v && x in g[u] && r.on[x]
      ensures r.low[r.dfs[k].v] <= r.num[x]
    {
      assert Under(g, st, k, u);
    }
  }

  lemma LookBoundOwn(g: Graph, st: State, w: nat)
    requires WellFormed(g) && Sizes(g, st) && FramesOk(g, st) && Looks(g, st, w) && BoundOwn(g, st)
    requires var r := Look(g, st, w); Sizes(g, r) && FramesOk(g, r)
    ensures BoundOwn(g, Look(g, st, w))
  {
    var r := Look(g, st, w);
    LookShape(g, st, w);
    forall k, j | 0 <= k < |r.dfs| && 0 <= j < r.dfs[k].i && r.on[g[r.dfs[k].v][j]]
      ensures r.low[r.dfs[k].v] <= r.num[g[r.dfs[k].v][j]]
    {
      assert r.dfs[k].v == st.dfs[k].v;
      if j < st.dfs[k].i {
        assert st.low[st.dfs[k].v] <= st.num[g[st.dfs[k].v][j]];
      }
    }
  }

  lemma LookKeeps(g: Graph, st: State, w: nat)
    requires Good(g, st) && Looks(g, st, w)
    ensures Good(g, Look(g, st, w))
  {
    Open(g, st);
    LookShape(g, st, w);
    LookFrames(g, st, w);
    LookVisited(g, st, w);
    LookReach(g, st, w);
    LookBoundUnder(g, st, Look(g, st, w));
    LookBoundOwn(g, st, w);
    var r := Look(g, st, w);
    assert forall v :: 0 <= v < |g| ==> (Black(g, r, v) <==> Black(g, st, v));
    Seal(g, Look(g, st, w));
  }

  // ----- Leave -----

  /** All callees of the top frame were looked at. */
  ghost predicate Exhausted(g: Graph, st: State) {
    st.dfs != [] && Top(st).v < |g| && Top(st).i == |g[Top(st).v]|
  }

  lemma GrayButTop(st: State, r: State, u: nat)
    requires st.dfs != [] && r.dfs == st.dfs[..|st.dfs| - 1] && Gray(st, u) && !Gray(r, u)
    ensures u == Top(st).v
  {
    assert forall k :: 0 <= k < |r.dfs| ==> r.dfs[k].v == st.dfs[k].v;
  }

  /** Frames below the top are kept by closing it. */
  lemma CloseFrames(g: Graph, st: State, r: State)
    requires WellFormed(g) && Sizes(g, st) && Sizes(g, r) && FramesOk(g, st) && VisitedOk(g, st) && Exhausted(g, st)
    requires r.dfs == st.dfs[..|st.dfs| - 1] && r.num == st.num
    requires forall v :: 0 <= v < |g| && r.on[v] ==> st.on[v]
    requires forall k :: 0 <= k < |r.dfs| ==> r.on[r.dfs[k].v]
    ensures FramesOk(g, r) && VisitedOk(g, r)
  {
    assert forall k :: 0 <= k < |r.dfs| ==> r.dfs[k] == st.dfs[k];
    forall u, x | 0 <= u < |g| && r.on[u] && !Gray(r, u) && x in g[u]
      ensures r.num[x] >= 0
    {
      if Gray(st, u) {
        GrayButTop(st, r, u);
        var j :| 0 <= j < |g[u]| && g[u][j] == x;
        assert j < Top(st).i;
      }
    }
    forall k, j | 0 <= k < |r.dfs| && 0 <= j < r.dfs[k].i
      ensures r.num[g[r.dfs[k].v][j]] >= 0
    {
      assert st.num[g[st.dfs[k].v][j]] >= 0;
    }
  }

  /** With a low link below its number, the top frame's vertex reaches an earlier frame. */
  lemma TopReachesBelow(g: Graph, st: State) returns (k: nat)
    requires Sizes(g, st) && StackOk(g, st) && FramesOk(g, st) && ReachHome(g, st) && LowOk(g, st)
    requires st.dfs != [] && st.low[Top(st).v] < st.num[Top(st).v]
    ensures k < |st.dfs| - 1 && Reach(g, Top(st).v, st.dfs[k].v)
    ensures st.num[st.dfs[k].v] <= st.low[Top(st).v]
  {
    var v := Top(st).v;
    assert LowWitness(g, st, v);
    var i :| 0 <= i < |st.stack| && st.num[st.stack[i]] == st.low[v] && Reach(g, v, st.stack[i]);
    assert HasHome(g, st, st.stack[i]);
    k :| 0 <= k < |st.dfs| && st.num[st.dfs[k].v] <= st.num[st.stack[i]] && Reach(g, st.stack[i], st.dfs[k].v);
    ReachTrans(g, v, st.stack[i], st.dfs[k].v);
  }

  ghost predicate Leaves(g: Graph, st: State)
    requires Sizes(g, st)
  {
    Exhausted(g, st) && |st.dfs| > 1 && st.dfs[|st.dfs| - 2].v < |g| && st.low[Top(st).v] < st.num[Top(st).v]
  }

  lemma LeaveShape(g: Graph, st: State)
    requires Sizes(g, st) && Leaves(g, st)
    ensures var r := Leave(g, st); var n := |st.dfs| - 1; var p, v := st.dfs[n - 1].v, Top(st).v;
            && r == st.(dfs := st.dfs[..n], low := r.low) && (forall k :: 0 <= k < n ==> r.dfs[k] == st.dfs[k])
            && |r.low| == |st.low| && (forall u :: 0 <= u < |g| && u != p ==> r.low[u] == st.low[u])
            && r.low[p] == if st.low[v] < st.low[p] then st.low[v] else st.low[p]
  {
  }

  lemma LeaveFrames(g: Graph, st: State)
    requires WellFormed(g) && Sizes(g, st) && StackOk(g, st) && FramesOk(g, st) && VisitedOk(g, st) && Leaves(g, st)
    ensures var r := Leave(g, st); Sizes(g, r) && StackOk(g, r) && FramesOk(g, r) && VisitedOk(g, r)
  {
    var r := Leave(g, st);
    var n := |st.dfs| - 1;
    assert st.num[st.dfs[n - 1].v] < st.num[st.dfs[n].v];
    CloseFrames(g, st, r);
  }

  lemma LeaveHome(g: Graph, st: State)
    requires Sizes(g, st) && StackOk(g, st) && FramesOk(g, st) && ReachHome(g, st) && LowOk(g, st) && Leaves(g, st)
    requires var r := Leave(g, st); Sizes(g, r) && StackOk(g, r) && FramesOk(g, r)
    ensures ReachHome(g, Leave(g, st))
  {
    var r := Leave(g, st);
    var n := |st.dfs| - 1;
    forall i | 0 <= i < |r.stack|
      ensures HasHome(g, r, r.stack[i])
    {
      var k := HomeOf(g, st, i);
      if k == n {
        var k' := TopReachesBelow(g, st);
        ReachTrans(g, st.stack[i], st.dfs[n].v, st.dfs[k'].v);
        HomeIs(g, r, r.stack[i], k', st.dfs[k'].v);
      } else {
        HomeIs(g, r, r.stack[i], k, st.dfs[k].v);
      }
    }
  }

  lemma LeaveLow(g: Graph, st: State)
    requires WellFormed(g) && Sizes(g, st) && StackOk(g, st) && FramesOk(g, st) && LowOk(g, st) && Leaves(g, st)
    requires var r := Leave(g, st); Sizes(g, r) && StackOk(g, r) && FramesOk(g, r)
    ensures LowOk(g, Leave(g, st))
  {
    var r := Leave(g, st);
    LeaveShape(g, st);
    var n := |st.dfs| - 1;
    var p, v := st.dfs[n - 1].v, st.dfs[n].v;
    forall k | 0 <= k < |r.dfs|
      ensures LowWitness(g, r, r.dfs[k].v)
    {
      var u := st.dfs[k].v;
      assert r.dfs[k].v == u;
      if r.low[u] == st.low[u] {
        assert LowWitness(g, st, u);
      } else {
        var i := LowAt(g, st, n);
        ReachEdge(g, p, v);
        ReachTrans(g, p, v, st.stack[i]);
        assert r.num[r.stack[i]] == r.low[p];
      }
    }
  }

  lemma LowAt(g: Graph, st: State, k: nat) returns (i: nat)
    requires Sizes(g, st) && StackOk(g, st) && FramesOk(g, st) && LowOk(g, st) && k < |st.dfs|
    ensures i < |st.stack| && st.num[st.stack[i]] == st.low[st.dfs[k].v] && Reach(g, st.dfs[k].v, st.stack[i])
  {
    assert LowWitness(g, st, st.dfs[k].v);
    i :| 0 <= i < |st.stack| && st.num[st.stack[i]] == st.low[st.dfs[k].v] && Reach(g, st.dfs[k].v, st.stack[i]);
  }

  /** Where the top frame's vertex sits on the stack. */
  lemma Position(g: Graph, st: State) returns (at: nat)
    requires Good(g, st) && st.dfs != []
    ensures at < |st.stack| && st.stack[at] == Top(st).v
    ensures forall i :: at < i < |st.stack| ==> st.stack[i] != Top(st).v
  {
    Open(g, st);
    at :| 0 <= at < |st.stack| && st.stack[at] == Top(st).v;
  }

  lemma HomeOf(g: Graph, st: State, i: nat) returns (k: nat)
    requires Sizes(g, st) && StackOk(g, st) && FramesOk(g, st) && ReachHome(g, st) && i < |st.stack|
    ensures k < |st.dfs| && st.num[st.dfs[k].v] <= st.num[st.stack[i]] && Reach(g, st.stack[i], st.dfs[k].v)
  {
    assert HasHome(g, st, st.stack[i]);
    k :| 0 <= k < |st.dfs| && st.num[st.dfs[k].v] <= st.num[st.stack[i]] && Reach(g, st.stack[i], st.dfs[k].v);
  }

  /** `r` is `st` with the top frame closed and its low link merged into the parent's. */
  ghost predicate Merged(g: Graph, st: State, r: State)
    requires Sizes(g, st) && Sizes(g, r)
  {
    && |st.dfs| > 1 && st.dfs[|st.dfs| - 2].v < |g| && Top(st).v < |g|
    && r.num == st.num && r.on == st.on && |r.dfs| == |st.dfs| - 1
    && (forall k :: 0 <= k < |r.dfs| ==> r.dfs[k] == st.dfs[k])
    && (forall u :: 0 <= u < |g| ==> r.low[u] <= st.low[u])
    && r.low[st.dfs[|st.dfs| - 2].v] <= st.low[Top(st).v]
  }

  lemma LeaveMerged(g: Graph, st: State)
    requires Sizes(g, st) && Leaves(g, st) && Sizes(g, Leave(g, st))
    ensures Merged(g, st, Leave(g, st))
  {
    LeaveShape(g, st);
  }

  lemma MergedUnder(g: Graph, st: State, r: State, k: nat, u: nat)
    requires Sizes(g, st) && FramesOk(g, st) && Sizes(g, r) && FramesOk(g, r) && Merged(g, st, r)
    requires u < |g| && k < |r.dfs| && Under(g, r, k, u)
    ensures Under(g, st, k, u) || (k == |st.dfs| - 2 && Under(g, st, |st.dfs| - 1, u))
  {
    var n := |st.dfs| - 1;
    assert r.dfs[n - 1].v == st.dfs[n - 1].v && st.num[st.dfs[n - 1].v] < st.num[st.dfs[n].v];
    if st.num[u] < st.num[st.dfs[n].v] {
      assert forall j :: k < j < |st.dfs| ==> st.num[u] < st.num[st.dfs[j].v];
    }
  }

  /** Once its callees were all looked at, the top frame's low link bounds every
      call from under it. */
  lemma TopBound(g: Graph, st: State, u: nat, x: nat)
    requires WellFormed(g) && Sizes(g, st) && FramesOk(g, st) && BoundUnder(g, st)
             && BoundOwn(g, st) && Exhausted(g, st)
    requires u < |g| && x < |g| && x in g[u] && st.on[x] && Under(g, st, |st.dfs| - 1, u)
    ensures st.low[Top(st).v] <= st.num[x]
  {
    var n := |st.dfs| - 1;
    if u == st.dfs[n].v {
      var j :| 0 <= j < |g[u]| && g[u][j] == x;
      assert j < st.dfs[n].i && st.on[g[st.dfs[n].v][j]];
    }
  }

  lemma MergedBound(g: Graph, st: State, r: State)
    requires WellFormed(g) && Sizes(g, st) && FramesOk(g, st) && Sizes(g, r) && FramesOk(g, r)
    requires BoundUnder(g, st) && BoundOwn(g, st) && Exhausted(g, st) && Merged(g, st, r)
    ensures BoundUnder(g, r)
  {
    forall k, u, x | 0 <= k < |r.dfs| && 0 <= u < |g| && Under(g, r, k, u) && u != r.dfs[k].v && x in g[u] && r.on[x]
      ensures r.low[r.dfs[k].v] <= r.num[x]
    {
      MergedUnder(g, st, r, k, u);
      if !Under(g, st, k, u) {
        TopBound(g, st, u, x);
      }
    }
  }

  lemma LeaveBoundOwn(g: Graph, st: State)
    requires WellFormed(g) && Sizes(g, st) && FramesOk(g, st) && BoundOwn(g, st) && Leaves(g, st)
    requires var r := Leave(g, st); Sizes(g, r) && FramesOk(g, r)
    ensures BoundOwn(g, Leave(g, st))
  {
    var r := Leave(g, st);
    forall k, j | 0 <= k < |r.dfs| && 0 <= j < r.dfs[k].i && r.on[g[r.dfs[k].v][j]]
      ensures r.low[r.dfs[k].v] <= r.num[g[r.dfs[k].v][j]]
    {
      assert r.dfs[k] == st.dfs[k];
      assert st.low[st.dfs[k].v] <= st.num[g[st.dfs[k].v][j]];
    }
  }

  lemma LeaveKeeps(g: Graph, st: State)
    requires Good(g, st) && Leaves(g, st)
    ensures Good(g, Leave(g, st))
  {
    Open(g, st);
    LeaveFrames(g, st);
    LeaveHome(g, st);
    LeaveLow(g, st);
    LeaveMerged(g, st);
    MergedBound(g, st, Leave(g, st));
    LeaveBoundOwn(g, st);
    var r := Leave(g, st);
    assert forall v :: 0 <= v < |g| ==> (Black(g, r, v) <==> Black(g, st, v));
    Seal(g, Leave(g, st));
  }

  // ----- Emit -----

  /** The top frame's vertex sits at stack position `at` and is the root of its component. */
  ghost predicate Emits(g: Graph, st: State, at: nat)
    requires Sizes(g, st)
  {
    Exhausted(g, st) && at < |st.stack| && st.stack[at] == Top(st).v && st.low[Top(st).v] == st.num[Top(st).v]
  }

  /** On the stack, position and number grow together. */
  lemma StackOrder(g: Graph, st: State, at: nat, u: nat)
    requires Sizes(g, st) && StackOk(g, st) && at < |st.stack| && u < |g| && st.on[u]
    ensures u in st.stack[at..] <==> st.num[u] >= st.num[st.stack[at]]
    ensures u in st.stack[..at] <==> st.num[u] < st.num[st.stack[at]]
  {
    var i :| 0 <= i < |st.stack| && st.stack[i] == u;
    if i >= at {
      assert st.stack[at..][i - at] == u;
    } else {
      assert st.stack[..at][i] == u;
    }
  }

  lemma EmitStack(g: Graph, st: State, at: nat)
    requires Sizes(g, st) && StackOk(g, st) && FramesOk(g, st) && Emits(g, st, at)
    ensures var r := Emit(g, st, at); Sizes(g, r) && StackOk(g, r)
    ensures forall v :: 0 <= v < |g| ==> (Emit(g, st, at).on[v] <==> st.on[v] && st.num[v] < st.num[st.stack[at]])
  {
    var r := Emit(g, st, at);
    forall v | 0 <= v < |g| && st.on[v]
      ensures r.on[v] <==> st.num[v] < st.num[st.stack[at]]
      ensures r.on[v] ==> v in r.stack
    {
      StackOrder(g, st, at, v);
    }
  }

  lemma EmitFrames(g: Graph, st: State, at: nat)
    requires WellFormed(g) && Sizes(g, st) && StackOk(g, st) && FramesOk(g, st) && VisitedOk(g, st) && Emits(g, st, at)
    ensures var r := Emit(g, st, at); Sizes(g, r) && StackOk(g, r) && FramesOk(g, r) && VisitedOk(g, r)
  {
    EmitStack(g, st, at);
    CloseFrames(g, st, Emit(g, st, at));
  }

  lemma EmitReachUp(g: Graph, st: State, at: nat)
    requires Sizes(g, st) && ReachUp(g, st) && at < |st.stack| && st.dfs != []
    ensures ReachUp(g, Emit(g, st, at))
  {
    var r := Emit(g, st, at);
    forall i, j | 0 <= i <= j < |r.stack|
      ensures Reach(g, r.stack[i], r.stack[j])
    {
      assert Reach(g, st.stack[i], st.stack[j]);
    }
  }

  lemma CutHome(g: Graph, st: State, r: State, at: nat)
    requires Sizes(g, st) && StackOk(g, st) && FramesOk(g, st) && ReachHome(g, st)
    requires st.dfs != [] && at < |st.stack| && st.stack[at] == Top(st).v
    requires Sizes(g, r) && StackOk(g, r) && FramesOk(g, r)
    requires r.num == st.num && r.stack == st.stack[..at] && r.dfs == st.dfs[..|st.dfs| - 1]
    ensures ReachHome(g, r)
  {
    forall i | 0 <= i < |r.stack|
      ensures HasHome(g, r, r.stack[i])
    {
      var k := HomeOf(g, st, i);
      CutBelow(g, st, at, i);
      HomeIs(g, r, r.stack[i], k, st.dfs[k].v);
    }
  }

  lemma HomeIs(g: Graph, r: State, y: nat, k: nat, v: nat)
    requires Sizes(g, r) && FramesOk(g, r) && y < |g|
    requires k < |r.dfs| && r.dfs[k].v == v && r.num[v] <= r.num[y] && Reach(g, y, v)
    ensures HasHome(g, r, y)
  {
  }

  lemma CutBelow(g: Graph, st: State, at: nat, i: nat)
    requires Sizes(g, st) && StackOk(g, st) && i < at < |st.stack|
    ensures st.num[st.stack[i]] < st.num[st.stack[at]]
  {
  }

  lemma EmitLow(g: Graph, st: State, at: nat)
    requires Sizes(g, st) && StackOk(g, st) && FramesOk(g, st) && LowOk(g, st) && Emits(g, st, at)
    requires var r := Emit(g, st, at); Sizes(g, r) && StackOk(g, r) && FramesOk(g, r)
    ensures LowOk(g, Emit(g, st, at))
  {
    var r := Emit(g, st, at);
    forall k | 0 <= k < |r.dfs|
      ensures LowWitness(g, r, r.dfs[k].v)
    {
      var v := st.dfs[k].v;
      assert r.dfs[k].v == v && st.num[v] < st.num[st.stack[at]];
      assert LowWitness(g, st, v);
      var i :| 0 <= i < |st.stack| && st.num[st.stack[i]] == st.low[v] && Reach(g, v, st.stack[i]);
      assert i < at && r.stack[i] == st.stack[i];
    }
  }

  lemma EmitUnder(g: Graph, st: State, at: nat, k: nat, u: nat)
    requires Sizes(g, st) && StackOk(g, st) && FramesOk(g, st) && Emits(g, st, at) && u < |g|
    requires var r := Emit(g, st, at); Sizes(g, r) && FramesOk(g, r) && k < |r.dfs| && Under(g, r, k, u)
    ensures Under(g, st, k, u)
  {
    var r := Emit(g, st, at);
    EmitStack(g, st, at);
    forall j | k < j < |st.dfs|
      ensures st.num[u] < st.num[st.dfs[j].v]
    {
      if j < |r.dfs| {
        assert r.dfs[j] == st.dfs[j];
      }
    }
  }

  lemma EmitBoundUnder(g: Graph, st: State, at: nat)
    requires WellFormed(g) && Sizes(g, st) && StackOk(g, st) && FramesOk(g, st) && BoundUnder(g, st) && Emits(g, st, at)
    requires var r := Emit(g, st, at); Sizes(g, r) && FramesOk(g, r)
    ensures BoundUnder(g, Emit(g, st, at))
  {
    var r := Emit(g, st, at);
    forall k, u, x | 0 <= k < |r.dfs| && 0 <= u < |g| && Under(g, r, k, u) && u != r.dfs[k].v && x in g[u] && r.on[x]
      ensures r.low[r.dfs[k].v] <= r.num[x]
    {
      EmitUnder(g, st, at, k, u);
      assert r.dfs[k] == st.dfs[k] && st.on[x];
    }
  }

  lemma EmitBoundOwn(g: Graph, st: State, at: nat)
    requires WellFormed(g) && Sizes(g, st) && FramesOk(g, st) && BoundOwn(g, st) && Emits(g, st, at)
    requires var r := Emit(g, st, at); Sizes(g, r) && FramesOk(g, r)
    ensures BoundOwn(g, Emit(g, st, at))
  {
    var r := Emit(g, st, at);
    forall k, j | 0 <= k < |r.dfs| && 0 <= j < r.dfs[k].i && r.on[g[r.dfs[k].v][j]]
      ensures r.low[r.dfs[k].v] <= r.num[g[r.dfs[k].v][j]]
    {
      assert r.dfs[k] == st.dfs[k];
      assert st.on[g[st.dfs[k].v][j]];
    }
  }

  // ----- the emitted component -----

  ghost function Blacks(g: Graph, st: State): set<nat>
    requires Sizes(g, st)
  {
    set v | v in Vertices(g) && Black(g, st, v)
  }

  ghost function Vertices(g: Graph): (r: set<nat>)
    ensures forall v: nat :: v in r <==> v < |g|
  {
    set i: nat | i < |g| && |g[i]| >= 0
  }

  lemma BlacksClosed(g: Graph, st: State)
    requires WellFormed(g) && Sizes(g, st) && BlackOk(g, st)
    ensures Closed(g, Blacks(g, st))
  {
    forall v, w | v in Blacks(g, st) && v < |g| && w in g[v]
      ensures w in Blacks(g, st)
    {
      assert InSome(st.sccs, |st.sccs|, v);
      var i :| 0 <= i < |st.sccs| && v in st.sccs[i];
      assert CallsBack(g, st.sccs, i) && IsClass(g, st.sccs[i]);
      assert InSome(st.sccs, i + 1, w);
      var j :| 0 <= j < i + 1 && w in st.sccs[j];
      assert IsClass(g, st.sccs[j]);
      assert InSome(st.sccs, |st.sccs|, w);
    }
  }

  /** Calls from the emitted vertices stay among them or lead to black vertices. */
  lemma EmittedCalls(g: Graph, st: State, at: nat, u: nat, x: nat)
    requires WellFormed(g) && Sizes(g, st) && StackOk(g, st) && FramesOk(g, st) && VisitedOk(g, st)
    requires BoundUnder(g, st) && BoundOwn(g, st) && Emits(g, st, at)
    requires u in st.stack[at..] && x in g[u]
    ensures x < |g| && (x in st.stack[at..] || Black(g, st, x))
  {
    var n := |st.dfs| - 1;
    var j :| 0 <= j < |g[u]| && g[u][j] == x;
    StackOrder(g, st, at, u);
    assert Under(g, st, n, u);
    assert st.num[x] >= 0 by {
      if Gray(st, u) {
        var k :| 0 <= k < |st.dfs| && st.dfs[k].v == u;
        assert k == n;
        assert st.num[g[st.dfs[n].v][j]] >= 0;
      }
    }
    if st.on[x] {
      TopBound(g, st, u, x);
      StackOrder(g, st, at, x);
    }
  }

  /** The emitted vertices are one full class of mutual reachability. */
  lemma EmittedClass(g: Graph, st: State, at: nat, x: nat, z: nat)
    requires Inv(g, st) && Emits(g, st, at) && x in st.stack[at..] && z < |g|
    ensures z in st.stack[at..] <==> Mutual(g, x, z)
  {
    var s := st.stack[at..];
    if z in s {
      EmittedMutual(g, st, at, x, z);
      EmittedMutual(g, st, at, z, x);
    }
    if Mutual(g, x, z) {
      BlacksClosed(g, st);
      var c := Blacks(g, st) + (set v | v in s);
      assert Closed(g, c) by {
        forall u, w | u in c && u < |g| && w in g[u]
          ensures w in c
        {
          if u in s {
            EmittedCalls(g, st, at, u, w);
          }
        }
      }
      ClosedReach(g, c, x, z);
      if z !in s {
        ClosedReach(g, Blacks(g, st), z, x);
        assert false;
      }
    }
  }

  lemma EmittedMutual(g: Graph, st: State, at: nat, x: nat, z: nat)
    requires Sizes(g, st) && StackOk(g, st) && FramesOk(g, st) && ReachUp(g, st) && ReachHome(g, st) && Emits(g, st, at)
    requires x in st.stack[at..] && z in st.stack[at..]
    ensures Reach(g, x, z)
  {
    assert x in st.stack;
    AllReachTop(g, st, x);
    var j :| 0 <= j < |st.stack| - at && st.stack[at..][j] == z;
    assert Reach(g, st.stack[at], st.stack[at + j]);
    ReachTrans(g, x, st.stack[at], z);
  }

  lemma ReverseMembers(s: seq<nat>, x: nat)
    ensures x in Reverse(s) <==> x in s
  {
    var r := Reverse(s);
    if x in s {
      var k :| 0 <= k < |s| && s[k] == x;
      assert r[|s| - 1 - k] == x;
    }
  }

  lemma EmitComponents(g: Graph, st: State, at: nat)
    requires Inv(g, st) && Emits(g, st, at)
    ensures Components(g, Emit(g, st, at).sccs)
  {
    var s := st.stack[at..];
    var scc := Reverse(s);
    var t := st.sccs + [scc];
    var m := |st.sccs|;
    forall x: nat
      ensures x in scc <==> x in s
    {
      ReverseMembers(s, x);
    }
    forall i, j, a, b | 0 <= i < |t| && 0 <= j < |t| && 0 <= a < |t[i]| && 0 <= b < |t[j]| && t[i][a] == t[j][b]
      ensures i == j && a == b
    {
      if i == m || j == m {
        EmittedFresh(g, st, at, t[i][a]);
        EmittedOnce(g, st, at);
      }
    }
    forall i | 0 <= i < |t|
      ensures IsClass(g, t[i])
    {
      if i < m {
        assert IsClass(g, st.sccs[i]);
      } else {
        forall x, z: nat | x in scc && z < |g|
          ensures z in scc <==> Mutual(g, x, z)
        {
          EmittedClass(g, st, at, x, z);
        }
      }
    }
    forall i | 0 <= i < |t|
      ensures CallsBack(g, t, i)
    {
      if i < m {
        assert CallsBack(g, st.sccs, i);
        forall x, w | x in t[i] && x < |g| && w in g[x]
          ensures InSome(t, i + 1, w)
        {
          assert InSome(st.sccs, i + 1, w);
          var j :| 0 <= j < i + 1 && w in st.sccs[j];
          assert w in t[j];
        }
      } else {
        forall x, w | x in scc && w in g[x]
          ensures InSome(t, m + 1, w)
        {
          EmittedCalls(g, st, at, x, w);
          if w in s {
            assert w in t[m];
          } else {
            assert InSome(st.sccs, m, w);
            var j :| 0 <= j < m && w in st.sccs[j];
            assert w in t[j];
          }
        }
      }
    }
  }

  lemma EmittedFresh(g: Graph, st: State, at: nat, x: nat)
    requires Sizes(g, st) && StackOk(g, st) && BlackOk(g, st) && at < |st.stack|
    ensures x in Reverse(st.stack[at..]) ==> forall i :: 0 <= i < |st.sccs| ==> x !in st.sccs[i]
  {
    if x in Reverse(st.stack[at..]) {
      ReverseMembers(st.stack[at..], x);
      assert !Black(g, st, x);
      forall i | 0 <= i < |st.sccs|
        ensures x !in st.sccs[i]
      {
        if x in st.sccs[i] {
          assert InSome(st.sccs, |st.sccs|, x);
        }
      }
    }
  }

  lemma EmittedOnce(g: Graph, st: State, at: nat)
    requires Sizes(g, st) && StackOk(g, st) && at < |st.stack|
    ensures var scc := Reverse(st.stack[at..]);
            forall a, b :: 0 <= a < |scc| && 0 <= b < |scc| && scc[a] == scc[b] ==> a == b
  {
    var s := st.stack[at..];
    assert forall k :: 0 <= k < |s| ==> s[k] == st.stack[at + k];
    assert forall i, j :: 0 <= i < j < |s| ==> st.num[s[i]] < st.num[s[j]];
  }

  lemma EmitBlack(g: Graph, st: State, at: nat)
    requires Inv(g, st) && Emits(g, st, at)
    ensures Sizes(g, Emit(g, st, at)) && BlackOk(g, Emit(g, st, at))
  {
    var r := Emit(g, st, at);
    var m := |st.sccs|;
    EmitStack(g, st, at);
    EmitComponents(g, st, at);
    forall v | 0 <= v < |g|
      ensures Black(g, r, v) <==> InSome(r.sccs, |r.sccs|, v)
    {
      ReverseMembers(st.stack[at..], v);
      assert Black(g, r, v) <==> Black(g, st, v) || v in st.stack[at..];
      if InSome(st.sccs, m, v) {
        var i :| 0 <= i < m && v in st.sccs[i];
        assert v in r.sccs[i];
      }
      if v in st.stack[at..] {
        assert v in r.sccs[m];
      }
      if InSome(r.sccs, |r.sccs|, v) {
        var i :| 0 <= i < |r.sccs| && v in r.sccs[i];
        if i < m {
          assert v in st.sccs[i];
        }
      }
    }
  }

  lemma EmitKeeps(g: Graph, st: State, at: nat)
    requires Good(g, st) && Emits(g, st, at)
    ensures Good(g, Emit(g, st, at))
  {
    Open(g, st);
    EmitFrames(g, st, at);
    EmitReachUp(g, st, at);
    CutHome(g, st, Emit(g, st, at), at);
    EmitLow(g, st, at);
    EmitBoundUnder(g, st, at);
    EmitBoundOwn(g, st, at);
    EmitBlack(g, st, at);
    Seal(g, Emit(g, st, at));
  }
}
