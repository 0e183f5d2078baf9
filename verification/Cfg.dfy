/** The control-flow graph handed to both emitters, and what running it means. */
module Cfg {
  import opened Basics

  /** A successor entry: the target block, and the position of this edge in the
      target's predecessor list (it selects the phi arguments of the edge). */
  datatype Edge = Edge(block: nat, index: nat)

  datatype Kind = Plain | If | BrTable | Ret | Unreachable | Throw | Invalid

  /** `hasControl` is false when the block carries no control value.  Case list `i`
      of a BrTable holds the selector values routed to successor `i`; all other
      selector values go to successor `dflt`. */
  datatype Block = Block(
    kind: Kind,
    succs: seq<Edge>,
    hasControl: bool,
    cases: seq<seq<int>>,
    dflt: int
  )

  datatype Func = Func(blocks: seq<Block>)
  {
    /** Every edge stays inside the function. */
    ghost predicate Wired() {
      forall b, i :: 0 <= b < |blocks| && 0 <= i < |blocks[b].succs| ==> blocks[b].succs[i].block < |blocks|
    }

    /** The table of every br_table routes a selector value to one successor only
        and names a default that exists. */
    ghost predicate TablesOk() {
      forall b :: 0 <= b < |blocks| && blocks[b].kind == BrTable && |blocks[b].cases| == |blocks[b].succs| ==>
        0 <= blocks[b].dflt < |blocks[b].succs| && Disjoint(blocks[b].cases)
    }
  }

  ghost predicate Disjoint(cases: seq<seq<int>>) {
    forall i, j, v :: 0 <= i < |cases| && 0 <= j < |cases| && v in cases[i] && v in cases[j] ==> i == j
  }

  /** Straight-line code either completes or panics. */
  datatype Step<+S> = Go(s: S) | Panic(s: S)

  /** What the abstract pieces of a function do to the state: the values of a block,
      the phi copies of an edge (predecessor, target, position), the branch
      condition and the table selector of a block. */
  datatype Machine<!S> = Machine(
    body: (nat, S) -> Step<S>,
    edge: (nat, nat, nat, S) -> Step<S>,
    cond: (nat, S) -> bool,
    sel: (nat, S) -> int
  )

  /** How a run ends.  `OutOfFuel` is a run cut off just before the values of the
      block it names. */
  datatype End<+S> =
    | Returned(b: nat, s: S)
    | Trapped(b: nat, s: S)
    | Thrown(b: nat, s: S)
    | Panicked(s: S)
    | OutOfFuel(b: nat, s: S)
    | Stuck
    | Diverged

  /** The successor a br_table takes for selector value `v`. */
  function TableIndex(cases: seq<seq<int>>, dflt: int, v: int): (i: int)
    ensures i == dflt || (0 <= i < |cases| && v in cases[i])
    ensures (forall j :: 0 <= j < |cases| ==> v !in cases[j]) ==> i == dflt
  {
    if cases == [] then dflt
    else if v in cases[|cases| - 1] then |cases| - 1
    else TableIndex(cases[..|cases| - 1], dflt, v)
  }

  /** With disjoint lists, a selector value found in list `i` is routed to `i`. */
  lemma TableIndexUnique(cases: seq<seq<int>>, dflt: int, v: int, i: int)
    requires Disjoint(cases) && 0 <= i < |cases| && v in cases[i]
    ensures TableIndex(cases, dflt, v) == i
  {
    if v !in cases[|cases| - 1] {
      var front := cases[..|cases| - 1];
      assert front[i] == cases[i];
      TableIndexUnique(front, dflt, v, i);
    }
  }

  /** Run block `b` of the graph with fuel for `k` block executions. */
  ghost function Run<S>(f: Func, m: Machine<S>, b: nat, s: S, k: nat): End<S>
    decreases k, 0
  {
    if k == 0 then OutOfFuel(b, s)
    else match m.body(b, s)
      case Panic(s') => Panicked(s')
      case Go(s') => RunTerminator(f, m, b, s', k - 1)
  }

  /** Control is at the end of block `b`, its values computed. */
  ghost function RunTerminator<S>(f: Func, m: Machine<S>, b: nat, s: S, k: nat): End<S>
    decreases k, 3
  {
    if b >= |f.blocks| then Stuck
    else
      var blk := f.blocks[b];
      match blk.kind
      case Ret => Returned(b, s)
      case Unreachable => Trapped(b, s)
      case Throw => Thrown(b, s)
      case Plain => RunSuccessor(f, m, b, 0, s, k)
      case If => RunSuccessor(f, m, b, if m.cond(b, s) then 0 else 1, s, k)
      case BrTable => RunSuccessor(f, m, b, TableIndex(blk.cases, blk.dflt, m.sel(b, s)), s, k)
      case Invalid => Stuck
  }

  ghost function RunSuccessor<S>(f: Func, m: Machine<S>, b: nat, i: int, s: S, k: nat): End<S>
    requires b < |f.blocks|
    decreases k, 2
  {
    if 0 <= i < |f.blocks[b].succs| then
      RunEdge(f, m, b, f.blocks[b].succs[i], s, k)
    else Stuck
  }

  /** The phi copies of an edge, then the target block. */
  ghost function RunEdge<S>(f: Func, m: Machine<S>, b: nat, e: Edge, s: S, k: nat): End<S>
    decreases k, 1
  {
    match m.edge(b, e.block, e.index, s)
    case Panic(s') => Panicked(s')
    case Go(s') => Run(f, m, e.block, s', k)
  }
}
