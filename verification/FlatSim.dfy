/** The flat program follows the graph whose edges skip empty blocks. */
module FlatSim {
  import opened Basics
  import opened Cfg
  import opened FlatCode

  // ----- label positions -----

  /** Every label defined in the code of a block is its own. */
  lemma OwnLabels(f: Func, plan: Plan, b: nat, next: Option<Label>, l: Label)
    requires Fits(f, plan) && b < |f.blocks| && Emittable(f, plan, b) && Define(l) in BlockCode(f, plan, b, next)
    ensures l.b == b
  {
    var start := [Define(BlockLabel(b)), Values(b)];
    assert Define(l) in start || Define(l) in TermCode(f, plan, b, next);
    if Define(l) !in start {
      TermLabels(f, plan, b, next, l);
    }
  }

  lemma TermLabels(f: Func, plan: Plan, b: nat, next: Option<Label>, l: Label)
    requires Fits(f, plan) && b < |f.blocks| && Emittable(f, plan, b) && Define(l) in TermCode(f, plan, b, next)
    ensures l.b == b
  {
    if f.blocks[b].kind.BrTable? {
      CasesDefineNothing(b, f.blocks[b].cases, Labels(f, plan, b), 0, l);
    } else if f.blocks[b].kind.If? {
      var e0, e1 := f.blocks[b].succs[0], f.blocks[b].succs[1];
      assert Define(l) in InterCode(f, plan, ElseLabel(b), b, e1)
             || Define(l) in InterCode(f, plan, ThenLabel(b), b, e0);
    }
  }

  lemma {:induction false} CasesDefineNothing(b: nat, cases: seq<seq<int>>, labels: seq<Label>, i: nat, l: Label)
    requires i <= |cases| <= |labels|
    ensures Define(l) !in CasesFrom(b, cases, labels, i)
    decreases |cases| - i
  {
    if i < |cases| {
      CasesDefineNothing(b, cases, labels, i + 1, l);
    }
  }

  lemma {:induction false} NotFound(code: seq<Instr>, l: Label)
    requires Define(l) !in code
    ensures Find(code, l) == |code|
  {
    if code != [] {
      NotFound(code[1..], l);
    }
  }

  lemma {:induction false} Found(code: seq<Instr>, l: Label)
    requires Define(l) in code
    ensures Find(code, l) < |code|
  {
    if code[0] != Define(l) {
      Found(code[1..], l);
    }
  }

  /** The pieces one after the other. */
  ghost function Flat(pieces: seq<seq<Instr>>): seq<Instr> {
    if pieces == [] then [] else Flat(pieces[..|pieces| - 1]) + pieces[|pieces| - 1]
  }

  ghost predicate OwnOnly(pieces: seq<seq<Instr>>) {
    forall b, l :: 0 <= b < |pieces| && Define(l) in pieces[b] ==> l.b == b
  }

  lemma {:induction false} ForeignLabel(pieces: seq<seq<Instr>>, l: Label)
    requires OwnOnly(pieces) && l.b >= |pieces|
    ensures Define(l) !in Flat(pieces)
  {
    if pieces != [] {
      ForeignLabel(pieces[..|pieces| - 1], l);
    }
  }

  /** `piece` stands at position `pc`. */
  ghost predicate At(code: seq<Instr>, pc: nat, piece: seq<Instr>) {
    pc + |piece| <= |code| && code[pc..pc + |piece|] == piece
  }

  lemma AtParts(code: seq<Instr>, pc: nat, a: seq<Instr>, b: seq<Instr>)
    requires At(code, pc, a + b)
    ensures At(code, pc, a) && At(code, pc + |a|, b)
  {
    assert code[pc..pc + |a|] == (a + b)[..|a|];
    assert code[pc + |a|..pc + |a| + |b|] == (a + b)[|a|..];
  }

  lemma AtFront(a: seq<Instr>, b: seq<Instr>, pc: nat, piece: seq<Instr>)
    requires At(a, pc, piece)
    ensures At(a + b, pc, piece)
  {
    assert (a + b)[pc..pc + |piece|] == a[pc..pc + |piece|];
  }

  /** Piece `b` stands where the ones before it end ... */
  lemma {:induction false} Placed(pieces: seq<seq<Instr>>, b: nat)
    requires b < |pieces|
    ensures At(Flat(pieces), |Flat(pieces[..b])|, pieces[b])
    ensures |Flat(pieces[..b + 1])| == |Flat(pieces[..b])| + |pieces[b]|
  {
    var n := |pieces| - 1;
    var front := Flat(pieces[..n]);
    assert pieces[..b + 1][..b] == pieces[..b];
    if b == n {
      assert (front + pieces[n])[|front|..] == pieces[n];
    } else {
      Placed(pieces[..n], b);
      assert pieces[..n][..b] == pieces[..b];
      AtFront(front, pieces[n], |Flat(pieces[..b])|, pieces[b]);
    }
  }

  /** ... and its labels are found there. */
  lemma {:induction false} LabelFound(pieces: seq<seq<Instr>>, b: nat, l: Label)
    requires OwnOnly(pieces) && b < |pieces| && Define(l) in pieces[b]
    ensures Find(Flat(pieces), l) == |Flat(pieces[..b])| + Find(pieces[b], l)
    ensures Find(Flat(pieces), l) < |Flat(pieces)|
  {
    var n := |pieces| - 1;
    FindConcat(Flat(pieces[..n]), pieces[n], l);
    if b == n {
      ForeignLabel(pieces[..n], l);
      NotFound(Flat(pieces[..n]), l);
      Found(pieces[n], l);
    } else {
      LabelFound(pieces[..n], b, l);
      assert pieces[..n][..b] == pieces[..b];
    }
  }

  ghost function Pieces(f: Func, plan: Plan): (r: seq<seq<Instr>>)
    requires Fits(f, plan) && AllEmittable(f, plan)
    ensures |r| == |f.blocks| && forall b :: 0 <= b < |r| ==> r[b] == BlockCode(f, plan, b, NextLabel(f, b))
  {
    seq(|f.blocks|, b requires 0 <= b < |f.blocks| => BlockCode(f, plan, b, NextLabel(f, b)))
  }

  ghost predicate AllEmittable(f: Func, plan: Plan)
    requires Fits(f, plan)
  {
    forall b :: 0 <= b < |f.blocks| ==> Emittable(f, plan, b)
  }

  /** The code of every block stands at its position in `pos`, and so do its labels. */
  ghost predicate Layout(f: Func, plan: Plan, code: seq<Instr>, pos: seq<nat>) {
    && Fits(f, plan) && AllEmittable(f, plan) && |pos| == |f.blocks| + 1
    && forall b {:trigger LaidOut(f, plan, code, pos, b)} :: 0 <= b < |f.blocks| ==> LaidOut(f, plan, code, pos, b)
  }

  ghost predicate LaidOut(f: Func, plan: Plan, code: seq<Instr>, pos: seq<nat>, b: nat)
    requires Fits(f, plan) && AllEmittable(f, plan) && |pos| == |f.blocks| + 1 && b < |f.blocks|
  {
    var own := BlockCode(f, plan, b, NextLabel(f, b));
    && At(code, pos[b], own) && pos[b + 1] == pos[b] + |own|
    && forall l :: Define(l) in own ==> Find(code, l) == pos[b] + Find(own, l)
  }

  /** Emitting the blocks in order lays them out. */
  lemma CodeIsLaidOut(f: Func, plan: Plan) returns (pos: seq<nat>)
    requires Fits(f, plan) && AllEmittable(f, plan)
    ensures Layout(f, plan, Flat(Pieces(f, plan)), pos) && pos[0] == 0
  {
    var pieces := Pieces(f, plan);
    forall b, l | 0 <= b < |pieces| && Define(l) in pieces[b]
      ensures l.b == b
    {
      OwnLabels(f, plan, b, NextLabel(f, b), l);
    }
    pos := seq(|f.blocks| + 1, b requires 0 <= b <= |f.blocks| => |Flat(pieces[..b])|);
    forall b | 0 <= b < |f.blocks|
      ensures LaidOut(f, plan, Flat(pieces), pos, b)
    {
      Placed(pieces, b);
      forall l | Define(l) in pieces[b]
        ensures Find(Flat(pieces), l) == pos[b] + Find(pieces[b], l)
      {
        LabelFound(pieces, b, l);
      }
    }
  }

  // ----- the graph with redirected edges -----

  /** Every edge goes straight to the block its target passes control to. */
  function Redirect(f: Func, plan: Plan): (r: Func)
    requires Fits(f, plan)
    ensures |r.blocks| == |f.blocks|
  {
    Func(seq(|f.blocks|, b requires 0 <= b < |f.blocks| => f.blocks[b].(succs := Redirected(f, plan, b))))
  }

  function Redirected(f: Func, plan: Plan, b: nat): (r: seq<Edge>)
    requires Fits(f, plan) && b < |f.blocks|
    ensures |r| == |f.blocks[b].succs|
  {
    var succs := f.blocks[b].succs;
    seq(|succs|, i requires 0 <= i < |succs| => Edge(Target(f, plan, succs[i].block), succs[i].index))
  }

  /** Empty blocks do nothing, nor do edges into blocks without phis. */
  ghost predicate Silent<S(!new)>(m: Machine<S>, plan: Plan) {
    && |plan.hasPhi| == |plan.empty|
    && (forall b: nat, s: S :: b < |plan.empty| && IsPassthrough(plan, b) ==> m.body(b, s) == Go(s))
    && (forall p: nat, t: nat, i: nat, s: S :: t < |plan.hasPhi| && !plan.hasPhi[t] ==> m.edge(p, t, i, s) == Go(s))
  }

  /** Every table routes a selector value to one successor only. */
  ghost predicate TablesDisjoint(f: Func) {
    forall b :: 0 <= b < |f.blocks| && f.blocks[b].kind == BrTable ==> Disjoint(f.blocks[b].cases)
  }

  /** Everything the simulation needs to know. */
  ghost predicate Ready<S(!new)>(f: Func, plan: Plan, m: Machine<S>, code: seq<Instr>, pos: seq<nat>) {
    Layout(f, plan, code, pos) && TablesDisjoint(f) && Silent(m, plan)
  }

  // ----- reaching a block -----

  /** The label of a block stands at its position. */
  lemma LabelAt(f: Func, plan: Plan, code: seq<Instr>, pos: seq<nat>, b: nat)
    requires Layout(f, plan, code, pos) && b < |f.blocks|
    ensures Find(code, BlockLabel(b)) == pos[b] < |code| && code[pos[b]] == Define(BlockLabel(b))
  {
    assert LaidOut(f, plan, code, pos, b);
    var own := BlockCode(f, plan, b, NextLabel(f, b));
    assert own[0] == Define(BlockLabel(b)) && own[0] in own;
    assert code[pos[b]..pos[b] + |own|][0] == code[pos[b]];
  }

  /** Jumping to the label of a block is being at its position. */
  lemma GotoBlock<S>(f: Func, plan: Plan, m: Machine<S>, code: seq<Instr>, pos: seq<nat>, pc: nat, b: nat, s: S, k: nat)
    requires Layout(f, plan, code, pos) && pc < |code| && b < |f.blocks|
    ensures FGoto(code, m, pc, BlockLabel(b), s, k) == FRun(code, m, pos[b], s, k)
  {
    LabelAt(f, plan, code, pos, b);
  }

  /** So is falling into it. */
  lemma JumpCodeRuns<S>(f: Func, plan: Plan, m: Machine<S>, code: seq<Instr>, pos: seq<nat>, b: nat, pc: nat, t: nat,
                        s: S, k: nat)
    requires Layout(f, plan, code, pos) && b < |f.blocks| && t < |f.blocks|
    requires At(code, pc, JumpCode(BlockLabel(t), NextLabel(f, b)))
    requires pc + |JumpCode(BlockLabel(t), NextLabel(f, b))| == pos[b + 1]
    ensures FRun(code, m, pc, s, k) == FRun(code, m, pos[t], s, k)
  {
    if NextLabel(f, b) != Some(BlockLabel(t)) {
      assert code[pc..pc + 1][0] == Jump(BlockLabel(t));
      GotoBlock(f, plan, m, code, pos, pc, t, s, k);
    }
  }

  /** With fuel `k`, every block runs as in the redirected graph. */
  ghost predicate AllRun<S(!new)>(f: Func, plan: Plan, m: Machine<S>, code: seq<Instr>, pos: seq<nat>, k: nat)
    requires Fits(f, plan) && |pos| == |f.blocks| + 1
  {
    forall t: nat, s: S {:trigger FRun(code, m, pos[t], s, k)} :: t < |f.blocks| ==>
      FRun(code, m, pos[t], s, k) == Run(Redirect(f, plan), m, t, s, k)
  }

  /** The edge out of a block with one successor: copies, then the jump. */
  lemma PlainRuns<S(!new)>(f: Func, plan: Plan, m: Machine<S>, code: seq<Instr>, pos: seq<nat>, b: nat, pc: nat, s: S,
                           k: nat)
    requires Ready(f, plan, m, code, pos) && b < |f.blocks| && f.blocks[b].kind == Plain
             && AllRun(f, plan, m, code, pos, k)
    requires At(code, pc, TermCode(f, plan, b, NextLabel(f, b)))
    requires pc + |TermCode(f, plan, b, NextLabel(f, b))| == pos[b + 1]
    ensures FRun(code, m, pc, s, k) == RunSuccessor(Redirect(f, plan), m, b, 0, s, k)
  {
    assert Emittable(f, plan, b);
    var e := f.blocks[b].succs[0];
    var t := Target(f, plan, e.block);
    AtParts(code, pc, EdgeCode(plan, b, e), JumpCode(BlockLabel(t), NextLabel(f, b)));
    if plan.hasPhi[e.block] {
      assert code[pc..pc + 1][0] == Copies(b, e.block, e.index);
      match m.edge(b, e.block, e.index, s)
      case Panic(_) =>
      case Go(s') => JumpCodeRuns(f, plan, m, code, pos, b, pc + 1, t, s', k);
    } else {
      JumpCodeRuns(f, plan, m, code, pos, b, pc, t, s, k);
    }
  }

  // ----- conditional branches -----

  /** Without phis on either side: the branch goes to one of the two targets. */
  lemma BranchRuns<S>(f: Func, plan: Plan, m: Machine<S>, code: seq<Instr>, pos: seq<nat>, b: nat, pc: nat,
                      t0: nat, t1: nat, s: S, k: nat)
    requires Layout(f, plan, code, pos) && b < |f.blocks| && t0 < |f.blocks| && t1 < |f.blocks|
    requires At(code, pc, BranchCode(b, BlockLabel(t0), BlockLabel(t1), NextLabel(f, b)))
    requires pc + |BranchCode(b, BlockLabel(t0), BlockLabel(t1), NextLabel(f, b))| == pos[b + 1]
    ensures FRun(code, m, pc, s, k) == FRun(code, m, pos[if m.cond(b, s) then t0 else t1], s, k)
  {
    var l0, l1 := BlockLabel(t0), BlockLabel(t1);
    var piece := BranchCode(b, l0, l1, NextLabel(f, b));
    assert code[pc] == piece[0];
    if m.cond(b, s) && piece[0] != JumpIf(b, false, l1) {
      GotoBlock(f, plan, m, code, pos, pc, t0, s, k);
    } else if !m.cond(b, s) && piece[0] == JumpIf(b, false, l1) {
      GotoBlock(f, plan, m, code, pos, pc, t1, s, k);
    } else if !m.cond(b, s) && |piece| == 2 {
      assert code[pc + 1] == piece[1];
      GotoBlock(f, plan, m, code, pos, pc + 1, t1, s, k);
    }
  }

  /** Copies at a branch label, then the jump. */
  lemma InterRuns<S(!new)>(f: Func, plan: Plan, m: Machine<S>, code: seq<Instr>, pos: seq<nat>, l: Label, b: nat,
                           i: nat, pc: nat, s: S, k: nat)
    requires Ready(f, plan, m, code, pos) && AllRun(f, plan, m, code, pos, k)
    requires b < |f.blocks| && i < |f.blocks[b].succs| && !l.BlockLabel?
    requires plan.hasPhi[f.blocks[b].succs[i].block]
    requires At(code, pc, InterCode(f, plan, l, b, f.blocks[b].succs[i]))
    ensures pc + 1 < |code| && FRun(code, m, pc + 1, s, k) == RunSuccessor(Redirect(f, plan), m, b, i, s, k)
  {
    var e := f.blocks[b].succs[i];
    var piece := InterCode(f, plan, l, b, e);
    assert code[pc..pc + |piece|][1] == code[pc + 1] == piece[1];
    assert code[pc..pc + |piece|][2] == code[pc + 2] == piece[2];
    match m.edge(b, e.block, e.index, s)
    case Panic(_) =>
    case Go(s') => GotoBlock(f, plan, m, code, pos, pc + 2, Target(f, plan, e.block), s', k);
  }

  lemma IfParts(f: Func, plan: Plan, b: nat, next: Option<Label>, pc: nat, code: seq<Instr>)
    requires Fits(f, plan) && b < |f.blocks| && Emittable(f, plan, b) && f.blocks[b].kind == If
    requires At(code, pc, TermCode(f, plan, b, next))
    requires plan.hasPhi[f.blocks[b].succs[0].block] || plan.hasPhi[f.blocks[b].succs[1].block]
    ensures var e0, e1 := f.blocks[b].succs[0], f.blocks[b].succs[1];
            && At(code, pc, [JumpIf(b, true, BranchLabel(f, plan, b, 0)), Jump(BranchLabel(f, plan, b, 1))])
            && At(code, pc + 2, InterCode(f, plan, ElseLabel(b), b, e1))
            && At(code, pc + 2 + |InterCode(f, plan, ElseLabel(b), b, e1)|, InterCode(f, plan, ThenLabel(b), b, e0))
  {
    var e0, e1 := f.blocks[b].succs[0], f.blocks[b].succs[1];
    var branch := [JumpIf(b, true, BranchLabel(f, plan, b, 0)), Jump(BranchLabel(f, plan, b, 1))];
    var else_, then_ := InterCode(f, plan, ElseLabel(b), b, e1), InterCode(f, plan, ThenLabel(b), b, e0);
    assert TermCode(f, plan, b, next) == branch + else_ + then_;
    AtParts(code, pc, branch + else_, then_);
    AtParts(code, pc, branch, else_);
  }

  /** Where side `i` of the branch of `b` jumps to. */
  ghost function BranchLabel(f: Func, plan: Plan, b: nat, i: nat): Label
    requires Fits(f, plan) && b < |f.blocks| && i < |f.blocks[b].succs|
  {
    var t := f.blocks[b].succs[i].block;
    if !plan.hasPhi[t] then BlockLabel(Target(f, plan, t)) else if i == 0 then ThenLabel(b) else ElseLabel(b)
  }

  lemma FoundAfter(start: seq<Instr>, rest: seq<Instr>, l: Label)
    requires Define(l) !in start
    ensures Find(start + rest, l) == |start| + Find(rest, l)
  {
    FindConcat(start, rest, l);
    NotFound(start, l);
  }

  /** Where the label of side `i` of a branch stands in the code of its block. */
  lemma InterFoundIn(f: Func, plan: Plan, b: nat, i: nat, next: Option<Label>)
    requires Fits(f, plan) && b < |f.blocks| && Emittable(f, plan, b) && f.blocks[b].kind == If && i < 2
    requires plan.hasPhi[f.blocks[b].succs[i].block]
    ensures var l, own := BranchLabel(f, plan, b, i), BlockCode(f, plan, b, next);
            Find(own, l)
              == 4 + (if i == 1 then 0 else |InterCode(f, plan, ElseLabel(b), b, f.blocks[b].succs[1])|) < |own|
  {
    var e0, e1 := f.blocks[b].succs[0], f.blocks[b].succs[1];
    var l := BranchLabel(f, plan, b, i);
    var start :=
      [Define(BlockLabel(b)), Values(b), JumpIf(b, true, BranchLabel(f, plan, b, 0)), Jump(BranchLabel(f, plan, b, 1))];
    var else_, then_ := InterCode(f, plan, ElseLabel(b), b, e1), InterCode(f, plan, ThenLabel(b), b, e0);
    assert BlockCode(f, plan, b, next) == start + (else_ + then_);
    InterFoundAmong(start, else_, then_, b, i, l);
  }

  lemma InterFoundAmong(start: seq<Instr>, else_: seq<Instr>, then_: seq<Instr>, b: nat, i: nat, l: Label)
    requires Define(l) !in start && i < 2
    requires i == 1 ==> else_ != [] && else_[0] == Define(l)
    requires i == 0 ==> then_ != [] && then_[0] == Define(l) && Define(l) !in else_
    ensures Find(start + (else_ + then_), l) == |start| + (if i == 1 then 0 else |else_|) < |start + (else_ + then_)|
  {
    FoundAfter(start, else_ + then_, l);
    if i == 0 {
      FoundAfter(else_, then_, l);
    }
  }

  /** A branch label is found in the code of its block. */
  lemma InterFound(f: Func, plan: Plan, code: seq<Instr>, pos: seq<nat>, b: nat, i: nat)
    requires Layout(f, plan, code, pos) && b < |f.blocks| && f.blocks[b].kind == If && i < 2
    ensures |f.blocks[b].succs| == 2
    ensures plan.hasPhi[f.blocks[b].succs[i].block] ==>
              Find(code, BranchLabel(f, plan, b, i)) ==
              pos[b] + 4 + if i == 1 then 0 else |InterCode(f, plan, ElseLabel(b), b, f.blocks[b].succs[1])|
  {
    assert LaidOut(f, plan, code, pos, b) && Emittable(f, plan, b);
    if plan.hasPhi[f.blocks[b].succs[i].block] {
      InterFoundIn(f, plan, b, i, NextLabel(f, b));
      var l, own := BranchLabel(f, plan, b, i), BlockCode(f, plan, b, NextLabel(f, b));
      assert own[Find(own, l)] == Define(l);
    }
  }

  /** One side of a branch with phis. */
  lemma SideRuns<S(!new)>(f: Func, plan: Plan, m: Machine<S>, code: seq<Instr>, pos: seq<nat>, b: nat, i: nat, pc: nat,
                          s: S, k: nat)
    requires Ready(f, plan, m, code, pos) && AllRun(f, plan, m, code, pos, k) && b < |f.blocks|
             && f.blocks[b].kind == If && i < 2
    requires |f.blocks[b].succs| == 2
    requires plan.hasPhi[f.blocks[b].succs[0].block] || plan.hasPhi[f.blocks[b].succs[1].block]
    requires pos[b] + 2 <= pc < pos[b] + 4 && pc < |code|
    ensures FGoto(code, m, pc, BranchLabel(f, plan, b, i), s, k) == RunSuccessor(Redirect(f, plan), m, b, i, s, k)
  {
    var e := f.blocks[b].succs[i];
    if plan.hasPhi[e.block] {
      InterFound(f, plan, code, pos, b, i);
      TermAt(f, plan, code, pos, b);
      IfParts(f, plan, b, NextLabel(f, b), pos[b] + 2, code);
      var p := Find(code, BranchLabel(f, plan, b, i));
      InterRuns(f, plan, m, code, pos, if i == 0 then ThenLabel(b) else ElseLabel(b), b, i, p, s, k);
    } else {
      GotoBlock(f, plan, m, code, pos, pc, Target(f, plan, e.block), s, k);
    }
  }

  lemma TermAt(f: Func, plan: Plan, code: seq<Instr>, pos: seq<nat>, b: nat)
    requires Layout(f, plan, code, pos) && b < |f.blocks|
    ensures Emittable(f, plan, b) && At(code, pos[b], [Define(BlockLabel(b)), Values(b)])
    ensures At(code, pos[b] + 2, TermCode(f, plan, b, NextLabel(f, b)))
    ensures pos[b] + 2 + |TermCode(f, plan, b, NextLabel(f, b))| == pos[b + 1]
  {
    assert LaidOut(f, plan, code, pos, b) && Emittable(f, plan, b);
    AtParts(code, pos[b], [Define(BlockLabel(b)), Values(b)], TermCode(f, plan, b, NextLabel(f, b)));
  }

  lemma IfRuns<S(!new)>(f: Func, plan: Plan, m: Machine<S>, code: seq<Instr>, pos: seq<nat>, b: nat, s: S, k: nat)
    requires Ready(f, plan, m, code, pos) && AllRun(f, plan, m, code, pos, k) && b < |f.blocks|
             && f.blocks[b].kind == If
    ensures FRun(code, m, pos[b] + 2, s, k)
            == RunSuccessor(Redirect(f, plan), m, b, if m.cond(b, s) then 0 else 1, s, k)
  {
    TermAt(f, plan, code, pos, b);
    var pc := pos[b] + 2;
    var e0, e1 := f.blocks[b].succs[0], f.blocks[b].succs[1];
    if plan.hasPhi[e0.block] || plan.hasPhi[e1.block] {
      IfParts(f, plan, b, NextLabel(f, b), pc, code);
      var branch := [JumpIf(b, true, BranchLabel(f, plan, b, 0)), Jump(BranchLabel(f, plan, b, 1))];
      assert code[pc..pc + 2][0] == code[pc] == branch[0];
      assert code[pc..pc + 2][1] == code[pc + 1] == branch[1];
      if m.cond(b, s) {
        SideRuns(f, plan, m, code, pos, b, 0, pc, s, k);
      } else {
        SideRuns(f, plan, m, code, pos, b, 1, pc + 1, s, k);
      }
    } else {
      BranchRuns(f, plan, m, code, pos, b, pc, Target(f, plan, e0.block), Target(f, plan, e1.block), s, k);
    }
  }

  // ----- tables -----

  /** The compare chain of one case list. */
  lemma {:induction false} ListRuns<S>(code: seq<Instr>, m: Machine<S>, b: nat, vals: seq<int>, l: Label, j: nat,
                                       pc: nat, s: S, k: nat)
    returns (p: nat)
    requires j <= |vals| && pc + |vals| - j <= |code|
    requires forall x :: j <= x < |vals| ==> code[pc + x - j] == JumpCase(b, vals[x], l)
    ensures m.sel(b, s) !in vals[j..] ==> FRun(code, m, pc, s, k) == FRun(code, m, pc + |vals| - j, s, k)
    ensures m.sel(b, s) in vals[j..] ==>
              pc <= p < pc + |vals| - j && FRun(code, m, pc, s, k) == FGoto(code, m, p, l, s, k)
    decreases |vals| - j
  {
    p := pc;
    if j < |vals| {
      assert code[pc] == JumpCase(b, vals[j], l);
      assert vals[j..] == [vals[j]] + vals[j + 1..];
      if m.sel(b, s) != vals[j] {
        p := ListRuns(code, m, b, vals, l, j + 1, pc + 1, s, k);
      }
    }
  }

  lemma ListAtRuns<S>(code: seq<Instr>, m: Machine<S>, b: nat, vals: seq<int>, l: Label, pc: nat, s: S, k: nat)
    returns (p: nat)
    requires At(code, pc, ListCode(b, vals, l))
    ensures m.sel(b, s) !in vals ==> FRun(code, m, pc, s, k) == FRun(code, m, pc + |vals|, s, k)
    ensures m.sel(b, s) in vals ==> pc <= p < |code| && FRun(code, m, pc, s, k) == FGoto(code, m, p, l, s, k)
  {
    var list := ListCode(b, vals, l);
    forall x | 0 <= x < |vals|
      ensures code[pc + x] == JumpCase(b, vals[x], l)
    {
      assert code[pc..pc + |list|][x] == list[x];
    }
    p := ListRuns(code, m, b, vals, l, 0, pc, s, k);
    assert vals[0..] == vals;
  }

  /** Jumping to any of the labels is being at its position in `at`. */
  ghost predicate Leads<S>(code: seq<Instr>, m: Machine<S>, labels: seq<Label>, at: seq<nat>, s: S, k: nat) {
    |at| == |labels| && forall p, x :: 0 <= p < |code| && 0 <= x < |labels| ==>
      FGoto(code, m, p, labels[x], s, k) == FRun(code, m, at[x], s, k)
  }

  /** The compare chain of a table routes every selector value as the table says. */
  lemma {:induction false} CasesRun<S>(code: seq<Instr>, m: Machine<S>, b: nat, cases: seq<seq<int>>, dflt: nat,
                                       labels: seq<Label>, at: seq<nat>, i: nat, pc: nat, s: S, k: nat)
    requires i <= |cases| <= |labels| && dflt < |labels| && Disjoint(cases) && Leads(code, m, labels, at, s, k)
    requires forall x :: 0 <= x < i ==> m.sel(b, s) !in cases[x]
    requires At(code, pc, CasesFrom(b, cases, labels, i) + [Jump(labels[dflt])])
    ensures FRun(code, m, pc, s, k) == FRun(code, m, at[TableIndex(cases, dflt, m.sel(b, s))], s, k)
    decreases |cases| - i
  {
    var final := [Jump(labels[dflt])];
    if i == |cases| {
      assert CasesFrom(b, cases, labels, i) + final == final;
      assert code[pc..pc + 1][0] == code[pc];
    } else {
      var list, rest := ListCode(b, cases[i], labels[i]), CasesFrom(b, cases, labels, i + 1) + final;
      assert CasesFrom(b, cases, labels, i) + final == list + rest;
      AtParts(code, pc, list, rest);
      var p := ListAtRuns(code, m, b, cases[i], labels[i], pc, s, k);
      if m.sel(b, s) in cases[i] {
        TableIndexUnique(cases, dflt, m.sel(b, s), i);
      } else {
        CasesRun(code, m, b, cases, dflt, labels, at, i + 1, pc + |list|, s, k);
      }
    }
  }

  lemma LabelsLead<S>(f: Func, plan: Plan, m: Machine<S>, code: seq<Instr>, pos: seq<nat>, b: nat, s: S, k: nat)
    returns (at: seq<nat>)
    requires Layout(f, plan, code, pos) && b < |f.blocks|
    ensures |at| == |f.blocks[b].succs|
            && forall x :: 0 <= x < |at| ==> at[x] == pos[Target(f, plan, f.blocks[b].succs[x].block)]
    ensures Leads(code, m, Labels(f, plan, b), at, s, k)
  {
    var succs := f.blocks[b].succs;
    at := seq(|succs|, x requires 0 <= x < |succs| => pos[Target(f, plan, succs[x].block)]);
    forall p, x | 0 <= p < |code| && 0 <= x < |succs|
      ensures FGoto(code, m, p, Labels(f, plan, b)[x], s, k) == FRun(code, m, at[x], s, k)
    {
      GotoBlock(f, plan, m, code, pos, p, Target(f, plan, succs[x].block), s, k);
    }
  }

  lemma TableRuns<S(!new)>(f: Func, plan: Plan, m: Machine<S>, code: seq<Instr>, pos: seq<nat>, b: nat, s: S, k: nat)
    requires Ready(f, plan, m, code, pos) && AllRun(f, plan, m, code, pos, k) && b < |f.blocks|
             && f.blocks[b].kind == BrTable
    ensures FRun(code, m, pos[b] + 2, s, k)
            == RunSuccessor(Redirect(f, plan), m, b, TableIndex(f.blocks[b].cases, f.blocks[b].dflt, m.sel(b, s)), s, k)
  {
    TermAt(f, plan, code, pos, b);
    var blk := f.blocks[b];
    var at := LabelsLead(f, plan, m, code, pos, b, s, k);
    CasesRun(code, m, b, blk.cases, blk.dflt, Labels(f, plan, b), at, 0, pos[b] + 2, s, k);
  }

  // ----- blocks -----

  /** The terminator of every block does what the graph does. */
  lemma TerminatorRuns<S(!new)>(f: Func, plan: Plan, m: Machine<S>, code: seq<Instr>, pos: seq<nat>, b: nat, s: S,
                                k: nat)
    requires Ready(f, plan, m, code, pos) && AllRun(f, plan, m, code, pos, k) && b < |f.blocks|
    ensures FRun(code, m, pos[b] + 2, s, k) == RunTerminator(Redirect(f, plan), m, b, s, k)
  {
    TermAt(f, plan, code, pos, b);
    var term := TermCode(f, plan, b, NextLabel(f, b));
    var pc := pos[b] + 2;
    match f.blocks[b].kind
    case Plain => PlainRuns(f, plan, m, code, pos, b, pc, s, k);
    case If => IfRuns(f, plan, m, code, pos, b, s, k);
    case BrTable => TableRuns(f, plan, m, code, pos, b, s, k);
    case Ret => assert code[pc..pc + |term|][0] == code[pc] == term[0];
    case Unreachable => assert code[pc..pc + |term|][0] == code[pc] == term[0];
    case _ =>
  }

  /** Started at any block, the flat program does what the redirected graph does,
      block for block. */
  lemma {:induction false} FlatRuns<S(!new)>(f: Func, plan: Plan, m: Machine<S>, code: seq<Instr>, pos: seq<nat>,
                                             k: nat)
    requires Ready(f, plan, m, code, pos)
    ensures AllRun(f, plan, m, code, pos, k)
  {
    if k > 0 {
      FlatRuns(f, plan, m, code, pos, k - 1);
    }
    forall b: nat, s: S | b < |f.blocks|
      ensures FRun(code, m, pos[b], s, k) == Run(Redirect(f, plan), m, b, s, k)
    {
      TermAt(f, plan, code, pos, b);
      assert code[pos[b]..pos[b] + 2][0] == code[pos[b]] == Define(BlockLabel(b));
      assert code[pos[b]..pos[b] + 2][1] == code[pos[b] + 1] == Values(b);
      if k > 0 {
        match m.body(b, s)
        case Panic(_) =>
        case Go(s') => TerminatorRuns(f, plan, m, code, pos, b, s', k - 1);
      }
    }
  }

  // ----- the redirected graph against the graph -----

  /** Fuel that reaches the same end when empty blocks are not skipped. */
  lemma {:induction false} PassRuns<S(!new)>(f: Func, plan: Plan, m: Machine<S>, b: nat, hops: nat, s: S, k: nat)
    returns (k': nat)
    requires Fits(f, plan) && Silent(m, plan) && b < |f.blocks|
    ensures k' >= k && Run(f, m, b, s, k') == Run(f, m, Pass(f, plan, b, hops), s, k)
    decreases hops
  {
    k' := k;
    if hops > 0 && HopFrom(f, plan, b).Some? {
      var next := HopFrom(f, plan, b).value;
      k' := PassRuns(f, plan, m, next, hops - 1, s, k);
      k' := k' + 1;
      assert RunSuccessor(f, m, b, 0, s, k' - 1) == RunEdge(f, m, b, f.blocks[b].succs[0], s, k' - 1);
    }
  }

  /** The edge taken out of block `b`, if there is one. */
  ghost function Taken<S>(f: Func, m: Machine<S>, b: nat, s: S): Option<Edge> {
    if b >= |f.blocks| then None
    else
      var blk := f.blocks[b];
      var i := if blk.kind == Plain then 0 else if blk.kind == If then if m.cond(b, s) then 0 else 1
               else TableIndex(blk.cases, blk.dflt, m.sel(b, s));
      if (blk.kind == Plain || blk.kind == If || blk.kind == BrTable) && 0 <= i < |blk.succs| then Some(blk.succs[i])
      else None
  }

  lemma Takes<S>(f: Func, m: Machine<S>, b: nat, s: S, k: nat)
    requires Taken(f, m, b, s).Some?
    ensures RunTerminator(f, m, b, s, k) == RunEdge(f, m, b, Taken(f, m, b, s).value, s, k)
  {
  }

  lemma TakesNone<S>(f: Func, m: Machine<S>, b: nat, s: S, k: nat, k': nat)
    requires Taken(f, m, b, s).None?
    ensures RunTerminator(f, m, b, s, k) == RunTerminator(f, m, b, s, k')
  {
  }

  lemma RedirectTakes<S(!new)>(f: Func, plan: Plan, m: Machine<S>, b: nat, s: S)
    requires Fits(f, plan) && Silent(m, plan) && b < |f.blocks|
    ensures Taken(f, m, b, s).None? ==> Taken(Redirect(f, plan), m, b, s).None?
    ensures Taken(f, m, b, s).Some? ==>
              var e := Taken(f, m, b, s).value;
              e.block < |f.blocks| && Taken(Redirect(f, plan), m, b, s) == Some(Edge(Target(f, plan, e.block), e.index))
              && m.edge(b, Target(f, plan, e.block), e.index, s) == m.edge(b, e.block, e.index, s)
  {
  }

  lemma RedirectHalts<S>(f: Func, plan: Plan, m: Machine<S>, b: nat, s: S, k: nat)
    requires Fits(f, plan) && b < |f.blocks| && Taken(f, m, b, s).None? && Taken(Redirect(f, plan), m, b, s).None?
    ensures RunTerminator(Redirect(f, plan), m, b, s, k) == RunTerminator(f, m, b, s, k)
  {
  }

  /** The state at the next block, if the run gets there. */
  ghost function Arrives<S>(f: Func, m: Machine<S>, b: nat, s: S): Option<(Edge, S)> {
    if m.body(b, s).Panic? then None
    else
      var s' := m.body(b, s).s;
      match Taken(f, m, b, s')
      case None => None
      case Some(e) => if m.edge(b, e.block, e.index, s').Panic? then None
                      else Some((e, m.edge(b, e.block, e.index, s').s))
  }

  lemma RunArrives<S>(f: Func, m: Machine<S>, b: nat, s: S, k: nat)
    requires k > 0 && Arrives(f, m, b, s).Some?
    ensures Run(f, m, b, s, k) == Run(f, m, Arrives(f, m, b, s).value.0.block, Arrives(f, m, b, s).value.1, k - 1)
  {
    Takes(f, m, b, m.body(b, s).s, k - 1);
  }

  lemma RunEnds<S>(f: Func, m: Machine<S>, b: nat, s: S, k: nat, k': nat)
    requires k > 0 && k' > 0 && Arrives(f, m, b, s).None?
    ensures Run(f, m, b, s, k) == Run(f, m, b, s, k')
  {
    if m.body(b, s).Go? {
      var s' := m.body(b, s).s;
      if Taken(f, m, b, s').None? {
        TakesNone(f, m, b, s', k - 1, k' - 1);
      } else {
        Takes(f, m, b, s', k - 1);
        Takes(f, m, b, s', k' - 1);
      }
    }
  }

  lemma RedirectArrives<S(!new)>(f: Func, plan: Plan, m: Machine<S>, b: nat, s: S, k: nat)
    requires Fits(f, plan) && Silent(m, plan) && b < |f.blocks|
    ensures Arrives(f, m, b, s).Some? ==>
              var (e, s') := Arrives(f, m, b, s).value;
              e.block < |f.blocks|
                && Arrives(Redirect(f, plan), m, b, s) == Some((Edge(Target(f, plan, e.block), e.index), s'))
    ensures Arrives(f, m, b, s).None? ==> Run(Redirect(f, plan), m, b, s, k) == Run(f, m, b, s, k)
  {
    if m.body(b, s).Go? {
      var s' := m.body(b, s).s;
      RedirectTakes(f, plan, m, b, s');
      if k > 0 {
        if Taken(f, m, b, s').None? {
          RedirectHalts(f, plan, m, b, s', k - 1);
        } else {
          Takes(f, m, b, s', k - 1);
          Takes(Redirect(f, plan), m, b, s', k - 1);
        }
      }
    }
  }

  /** Every run of the redirected graph is a run of the graph. */
  lemma {:induction false} RedirectRuns<S(!new)>(f: Func, plan: Plan, m: Machine<S>, b: nat, s: S, k: nat)
    returns (k': nat)
    requires Fits(f, plan) && Silent(m, plan) && b < |f.blocks|
    ensures k' >= k && Run(f, m, b, s, k') == Run(Redirect(f, plan), m, b, s, k)
    decreases k
  {
    k' := k;
    RedirectArrives(f, plan, m, b, s, k);
    if k > 0 && Arrives(f, m, b, s).Some? {
      var (e, s') := Arrives(f, m, b, s).value;
      k' := RedirectRuns(f, plan, m, Target(f, plan, e.block), s', k - 1);
      k' := PassRuns(f, plan, m, e.block, HopLimit, s', k');
      k' := k' + 1;
      RunArrives(f, m, b, s, k');
      RunArrives(Redirect(f, plan), m, b, s, k);
    }
  }

  /** A finished run does not change with more fuel. */
  lemma {:induction false} Finished<S>(f: Func, m: Machine<S>, b: nat, s: S, k: nat, k': nat)
    requires k <= k' && !Run(f, m, b, s, k).OutOfFuel?
    ensures Run(f, m, b, s, k') == Run(f, m, b, s, k)
    decreases k
  {
    if Arrives(f, m, b, s).Some? {
      var (e, s') := Arrives(f, m, b, s).value;
      RunArrives(f, m, b, s, k);
      RunArrives(f, m, b, s, k');
      Finished(f, m, e.block, s', k - 1, k' - 1);
    } else {
      RunEnds(f, m, b, s, k, k');
    }
  }

  /** The flat program agrees with the graph: whatever it does is a run of the graph that also
      passes the skipped blocks, and whatever the graph finishes with, it finishes with. */
  ghost predicate Agrees<S(!new)>(f: Func, m: Machine<S>, code: seq<Instr>, s: S, k: nat) {
    && (exists k' :: k' >= k && Run(f, m, 0, s, k') == FRun(code, m, 0, s, k))
    && (!Run(f, m, 0, s, k).OutOfFuel? ==> FRun(code, m, 0, s, k) == Run(f, m, 0, s, k))
  }

  lemma FlatAgrees<S(!new)>(f: Func, plan: Plan, m: Machine<S>, s: S, k: nat)
    requires Fits(f, plan) && AllEmittable(f, plan) && TablesDisjoint(f) && Silent(m, plan) && f.blocks != []
    ensures Agrees(f, m, Flat(Pieces(f, plan)), s, k)
  {
    var code := Flat(Pieces(f, plan));
    var pos := CodeIsLaidOut(f, plan);
    FlatRuns(f, plan, m, code, pos, k);
    assert FRun(code, m, pos[0], s, k) == Run(Redirect(f, plan), m, 0, s, k);
    var k' := RedirectRuns(f, plan, m, 0, s, k);
    if !Run(f, m, 0, s, k).OutOfFuel? {
      Finished(f, m, 0, s, k, k');
    }
  }
}
