/** The flat program: labels, jumps, and what running it means. */
module FlatCode {
  import opened Basics
  import opened Cfg

  /** The label of a block, and the labels ahead of the phi copies of its two branches. */
  datatype Label = BlockLabel(b: nat) | ThenLabel(b: nat) | ElseLabel(b: nat)

  /** `JumpIf` tests the condition of a block and jumps when it comes out as `sense`;
      `JumpCase` compares the selector of a block with a constant. */
  datatype Instr =
    | Define(l: Label)
    | Values(b: nat)
    | Copies(pred: nat, target: nat, index: nat)
    | JumpIf(b: nat, sense: bool, l: Label)
    | JumpCase(b: nat, value: int, l: Label)
    | Jump(l: Label)
    | Return(b: nat)
    | Trap(b: nat)

  /** Where a label is defined; past the end if it is not. */
  function Find(code: seq<Instr>, l: Label): (p: nat)
    ensures p <= |code| && (p < |code| ==> code[p] == Define(l))
  {
    if code == [] || code[0] == Define(l) then 0 else 1 + Find(code[1..], l)
  }

  lemma {:induction false} FindConcat(a: seq<Instr>, b: seq<Instr>, l: Label)
    ensures Find(a + b, l) == if Find(a, l) < |a| then Find(a, l) else |a| + Find(b, l)
  {
    if a == [] {
      assert a + b == b;
    } else if a[0] != Define(l) {
      assert (a + b)[1..] == a[1..] + b;
      FindConcat(a[1..], b, l);
    }
  }

  /** Runs from position `pc` with fuel for `k` blocks: passing the label of a block
      takes one unit. */
  ghost function FRun<S>(code: seq<Instr>, m: Machine<S>, pc: nat, s: S, k: nat): End<S>
    decreases k, |code| - pc
  {
    if pc >= |code| then Stuck
    else match code[pc]
      case Define(BlockLabel(b)) => if k == 0 then OutOfFuel(b, s) else FRun(code, m, pc + 1, s, k - 1)
      case Define(_) => FRun(code, m, pc + 1, s, k)
      case Values(b) => (match m.body(b, s)
                         case Panic(s') => Panicked(s')
                         case Go(s') => FRun(code, m, pc + 1, s', k))
      case Copies(p, t, i) => (match m.edge(p, t, i, s)
                               case Panic(s') => Panicked(s')
                               case Go(s') => FRun(code, m, pc + 1, s', k))
      case JumpIf(b, sense, l) =>
        if m.cond(b, s) == sense then FGoto(code, m, pc, l, s, k) else FRun(code, m, pc + 1, s, k)
      case JumpCase(b, v, l) => if m.sel(b, s) == v then FGoto(code, m, pc, l, s, k) else FRun(code, m, pc + 1, s, k)
      case Jump(l) => FGoto(code, m, pc, l, s, k)
      case Return(b) => Returned(b, s)
      case Trap(b) => Trapped(b, s)
  }

  /** A jump back to the label of a branch, which nothing emits, is given no meaning. */
  ghost function FGoto<S>(code: seq<Instr>, m: Machine<S>, pc: nat, l: Label, s: S, k: nat): End<S>
    requires pc < |code|
    decreases k, |code| - pc, 0
  {
    var p := Find(code, l);
    if p >= |code| then Stuck
    else if l.BlockLabel? then
      if k == 0 then OutOfFuel(l.b, s) else FRun(code, m, p + 1, s, k - 1)
    else if p > pc then FRun(code, m, p + 1, s, k)
    else Stuck
  }

  // ----- what is emitted -----

  /** Which blocks have phis, and which have no other values. */
  datatype Plan = Plan(hasPhi: seq<bool>, empty: seq<bool>)

  ghost predicate Fits(f: Func, plan: Plan) {
    f.Wired() && |plan.hasPhi| == |plan.empty| == |f.blocks|
  }

  predicate IsPassthrough(plan: Plan, b: nat)
    requires b < |plan.hasPhi| == |plan.empty|
  {
    !plan.hasPhi[b] && plan.empty[b]
  }

  /** One hop along an empty block. */
  function HopFrom(f: Func, plan: Plan, b: nat): (r: Option<nat>)
    requires Fits(f, plan) && b < |f.blocks|
    ensures r.Some? ==> r.value < |f.blocks| && !plan.hasPhi[r.value] && !plan.hasPhi[b]
  {
    var blk := f.blocks[b];
    if blk.kind != Plain || |blk.succs| != 1 || !IsPassthrough(plan, b) then None
    else if blk.succs[0].block == b || plan.hasPhi[blk.succs[0].block] then None
    else Some(blk.succs[0].block)
  }

  function Pass(f: Func, plan: Plan, b: nat, hops: nat): (r: nat)
    requires Fits(f, plan) && b < |f.blocks|
    ensures r < |f.blocks| && (plan.hasPhi[b] ==> r == b) && (!plan.hasPhi[b] ==> !plan.hasPhi[r])
    decreases hops
  {
    if hops == 0 then b
    else match HopFrom(f, plan, b)
      case None => b
      case Some(next) => Pass(f, plan, next, hops - 1)
  }

  const HopLimit: nat := 8

  function Target(f: Func, plan: Plan, b: nat): (r: nat)
    requires Fits(f, plan) && b < |f.blocks|
    ensures r < |f.blocks| && (plan.hasPhi[b] ==> r == b) && (!plan.hasPhi[b] ==> !plan.hasPhi[r])
  {
    Pass(f, plan, b, HopLimit)
  }

  /** Block `b` does nothing but lead on to another block without phis, `c`. */
  predicate LeadsOn(f: Func, plan: Plan, b: nat, c: nat)
    requires Fits(f, plan) && b < |f.blocks|
  {
    f.blocks[b].kind == Plain && |f.blocks[b].succs| == 1 && f.blocks[b].succs[0].block == c
    && !plan.hasPhi[b] && plan.empty[b] && c != b && !plan.hasPhi[c]
  }

  ghost predicate Ends(f: Func, plan: Plan, b: nat)
    requires Fits(f, plan) && b < |f.blocks|
  {
    forall c: nat :: c < |f.blocks| ==> !LeadsOn(f, plan, b, c)
  }

  /** `path` goes from `b` to `r` along blocks that do nothing; it ends at one that
      does something, or after `hops` steps. */
  ghost predicate Skips(f: Func, plan: Plan, b: nat, r: nat, hops: nat, path: seq<nat>)
    requires Fits(f, plan)
  {
    && 0 < |path| <= hops + 1 && path[0] == b && path[|path| - 1] == r
    && (forall i :: 0 <= i < |path| ==> path[i] < |f.blocks|)
    && (forall i :: 0 <= i < |path| - 1 ==> LeadsOn(f, plan, path[i], path[i + 1]))
    && (|path| == hops + 1 || Ends(f, plan, r))
  }

  lemma {:induction false} PassSkips(f: Func, plan: Plan, b: nat, hops: nat) returns (path: seq<nat>)
    requires Fits(f, plan) && b < |f.blocks|
    ensures Skips(f, plan, b, Pass(f, plan, b, hops), hops, path)
    decreases hops
  {
    path := [b];
    if hops > 0 && HopFrom(f, plan, b).Some? {
      var rest := PassSkips(f, plan, HopFrom(f, plan, b).value, hops - 1);
      path := [b] + rest;
      assert forall i :: 0 < i < |path| ==> path[i] == rest[i - 1];
    }
  }

  lemma {:induction false} SkipsPass(f: Func, plan: Plan, b: nat, r: nat, hops: nat, path: seq<nat>)
    requires Fits(f, plan) && Skips(f, plan, b, r, hops, path)
    ensures b < |f.blocks| && Pass(f, plan, b, hops) == r
    decreases hops
  {
    if |path| > 1 {
      assert LeadsOn(f, plan, path[0], path[1]);
      SkipsPass(f, plan, path[1], r, hops - 1, path[1..]);
    } else if hops > 0 && HopFrom(f, plan, b).Some? {
      assert LeadsOn(f, plan, b, HopFrom(f, plan, b).value);
    }
  }

  /** A jump is redirected along at most eight empty blocks, and past every one of them
      within that limit. */
  lemma TargetIff(f: Func, plan: Plan, b: nat, r: nat)
    requires Fits(f, plan) && b < |f.blocks|
    ensures Target(f, plan, b) == r <==> exists path :: Skips(f, plan, b, r, 8, path)
  {
    if Target(f, plan, b) == r {
      var path := PassSkips(f, plan, b, HopLimit);
    }
    forall path | Skips(f, plan, b, r, 8, path)
      ensures Target(f, plan, b) == r
    {
      SkipsPass(f, plan, b, r, 8, path);
    }
  }

  function JumpCode(l: Label, next: Option<Label>): seq<Instr> {
    if next == Some(l) then [] else [Jump(l)]
  }

  function BranchCode(b: nat, then_: Label, else_: Label, next: Option<Label>): seq<Instr> {
    if next == Some(else_) then [JumpIf(b, true, then_)]
    else if next == Some(then_) then [JumpIf(b, false, else_)]
    else [JumpIf(b, true, then_), Jump(else_)]
  }

  function ListCode(b: nat, vals: seq<int>, l: Label): seq<Instr> {
    seq(|vals|, j requires 0 <= j < |vals| => JumpCase(b, vals[j], l))
  }

  function CasesFrom(b: nat, cases: seq<seq<int>>, labels: seq<Label>, i: nat): seq<Instr>
    requires i <= |cases| <= |labels|
    decreases |cases| - i
  {
    if i == |cases| then [] else ListCode(b, cases[i], labels[i]) + CasesFrom(b, cases, labels, i + 1)
  }

  /** A branch label, the phi copies of the branch, and the jump on. */
  function InterCode(f: Func, plan: Plan, l: Label, b: nat, e: Edge): seq<Instr>
    requires Fits(f, plan) && e.block < |f.blocks|
  {
    if plan.hasPhi[e.block] then [Define(l), Copies(b, e.block, e.index), Jump(BlockLabel(Target(f, plan, e.block)))]
    else []
  }

  function Labels(f: Func, plan: Plan, b: nat): (r: seq<Label>)
    requires Fits(f, plan) && b < |f.blocks|
    ensures |r| == |f.blocks[b].succs|
  {
    seq(|f.blocks[b].succs|,
        i requires 0 <= i < |f.blocks[b].succs| => BlockLabel(Target(f, plan, f.blocks[b].succs[i].block)))
  }

  /** The blocks that can be emitted. */
  ghost predicate Emittable(f: Func, plan: Plan, b: nat)
    requires Fits(f, plan) && b < |f.blocks|
  {
    var blk := f.blocks[b];
    match blk.kind
    case Plain => |blk.succs| == 1
    case If => |blk.succs| == 2 && blk.hasControl
    case Ret => true
    case Unreachable => true
    case BrTable => blk.hasControl && blk.succs != [] && 0 <= blk.dflt < |blk.succs| && |blk.cases| <= |blk.succs|
                    && forall i :: 0 <= i < |blk.succs| ==> !plan.hasPhi[blk.succs[i].block]
    case Throw => false
    case Invalid => false
  }

  /** The phi copies of the edge out of a block with one successor. */
  function EdgeCode(plan: Plan, b: nat, e: Edge): seq<Instr>
    requires e.block < |plan.hasPhi|
  {
    if plan.hasPhi[e.block] then [Copies(b, e.block, e.index)] else []
  }

  function TermCode(f: Func, plan: Plan, b: nat, next: Option<Label>): seq<Instr>
    requires Fits(f, plan) && b < |f.blocks| && Emittable(f, plan, b)
  {
    var blk := f.blocks[b];
    match blk.kind
    case Plain =>
      EdgeCode(plan, b, blk.succs[0]) + JumpCode(BlockLabel(Target(f, plan, blk.succs[0].block)), next)
    case If =>
      var e0, e1 := blk.succs[0], blk.succs[1];
      var then_, else_ := BlockLabel(Target(f, plan, e0.block)), BlockLabel(Target(f, plan, e1.block));
      if !plan.hasPhi[e0.block] && !plan.hasPhi[e1.block] then BranchCode(b, then_, else_, next)
      else
        BranchCode(b, if plan.hasPhi[e0.block] then ThenLabel(b) else then_,
                   if plan.hasPhi[e1.block] then ElseLabel(b) else else_, None)
        + InterCode(f, plan, ElseLabel(b), b, e1) + InterCode(f, plan, ThenLabel(b), b, e0)
    case Ret => [Return(b)]
    case BrTable =>
      CasesFrom(b, blk.cases, Labels(f, plan, b), 0) + [Jump(Labels(f, plan, b)[blk.dflt])]
    case _ => [Trap(b)]
  }

  function BlockCode(f: Func, plan: Plan, b: nat, next: Option<Label>): seq<Instr>
    requires Fits(f, plan) && b < |f.blocks| && Emittable(f, plan, b)
  {
    [Define(BlockLabel(b)), Values(b)] + TermCode(f, plan, b, next)
  }

  function NextLabel(f: Func, b: nat): Option<Label> {
    if b + 1 < |f.blocks| then Some(BlockLabel(b + 1)) else None
  }
}
