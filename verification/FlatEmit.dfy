/** Emission of a function as a flat program. */
module FlatEmit {
  import opened Basics
  import opened Cfg
  import opened FlatCode
  import opened FlatSim

  lemma FlatSnoc(pieces: seq<seq<Instr>>, piece: seq<Instr>)
    ensures Flat(pieces + [piece]) == Flat(pieces) + piece
  {
    assert (pieces + [piece])[..|pieces|] == pieces;
  }

  /** The pieces of the first blocks. */
  ghost predicate Prefix(f: Func, plan: Plan, pieces: seq<seq<Instr>>) {
    && Fits(f, plan) && |pieces| <= |f.blocks|
    && (forall c :: 0 <= c < |pieces| ==> Emittable(f, plan, c))
    && (forall c :: 0 <= c < |pieces| ==> pieces[c] == BlockCode(f, plan, c, NextLabel(f, c)))
  }

  lemma PrefixGrows(f: Func, plan: Plan, pieces: seq<seq<Instr>>, piece: seq<Instr>) returns (longer: seq<seq<Instr>>)
    requires Prefix(f, plan, pieces) && |pieces| < |f.blocks| && Emittable(f, plan, |pieces|)
    requires piece == BlockCode(f, plan, |pieces|, NextLabel(f, |pieces|))
    ensures Prefix(f, plan, longer) && |longer| == |pieces| + 1 && Flat(longer) == Flat(pieces) + piece
  {
    longer := pieces + [piece];
    FlatSnoc(pieces, piece);
    forall c | 0 <= c < |longer|
      ensures Emittable(f, plan, c) && longer[c] == BlockCode(f, plan, c, NextLabel(f, c))
    {
      assert c < |pieces| ==> longer[c] == pieces[c];
    }
  }

  lemma PrefixIsAll(f: Func, plan: Plan, pieces: seq<seq<Instr>>)
    requires Prefix(f, plan, pieces) && |pieces| == |f.blocks|
    ensures AllEmittable(f, plan) && pieces == Pieces(f, plan)
  {
  }

  class FlatEmitter {
    const f: Func
    const plan: Plan
    var code: seq<Instr>

    constructor (f: Func, plan: Plan)
      ensures this.f == f && this.plan == plan && code == []
    {
      this.f, this.plan, code := f, plan, [];
    }

    /** The block that control reaches from `b` through at most eight empty blocks. */
    method PassthroughTarget(b: nat) returns (cur: nat)
      requires Fits(f, plan) && b < |f.blocks|
      ensures cur == Target(f, plan, b)
    {
      cur := b;
      var hop := 0;
      while hop < HopLimit
        invariant hop <= HopLimit && cur < |f.blocks| && Pass(f, plan, cur, HopLimit - hop) == Target(f, plan, b)
      {
        var blk := f.blocks[cur];
        if blk.kind != Plain || |blk.succs| != 1 || !IsPassthrough(plan, cur) {
          break;
        }
        var next := blk.succs[0].block;
        if next == cur || plan.hasPhi[next] {
          break;
        }
        cur := next;
        hop := hop + 1;
      }
    }

    method Emit(i: Instr)
      modifies this`code
      ensures code == old(code) + [i]
    {
      code := code + [i];
    }

    /** A jump, unless control falls through to `l` anyway. */
    method EmitJmp(l: Label, next: Option<Label>)
      modifies this`code
      ensures code == old(code) + JumpCode(l, next)
    {
      if next == Some(l) {
        return;
      }
      Emit(Jump(l));
    }

    /** A conditional branch, dropping the jump to the next block and inverting the
        condition where that helps. */
    method EmitIfBranch(b: nat, then_: Label, else_: Label, next: Option<Label>)
      modifies this`code
      ensures code == old(code) + BranchCode(b, then_, else_, next)
    {
      if next == Some(else_) {
        Emit(JumpIf(b, true, then_));
      } else if next == Some(then_) {
        Emit(JumpIf(b, false, else_));
      } else {
        Emit(JumpIf(b, true, then_));
        Emit(Jump(else_));
      }
    }

    /** One comparison per case value, then the jump to the default. */
    method EmitBrTable(b: nat, cases: seq<seq<int>>, labels: seq<Label>, dflt: Label)
      requires |cases| <= |labels|
      modifies this`code
      ensures code == old(code) + CasesFrom(b, cases, labels, 0) + [Jump(dflt)]
    {
      ghost var start := code;
      for i := 0 to |cases|
        invariant code + CasesFrom(b, cases, labels, i) == start + CasesFrom(b, cases, labels, 0)
      {
        ghost var before := code;
        for j := 0 to |cases[i]|
          invariant code == before + ListCode(b, cases[i], labels[i])[..j]
        {
          Emit(JumpCase(b, cases[i][j], labels[i]));
        }
        assert code == before + ListCode(b, cases[i], labels[i]);
      }
      Emit(Jump(dflt));
    }

    /** The phi copies of an edge, if its target has phis. */
    method EmitPhiEdgeCopies(b: nat, e: Edge)
      requires e.block < |plan.hasPhi|
      modifies this`code
      ensures code == old(code) + EdgeCode(plan, b, e)
    {
      if !plan.hasPhi[e.block] {
        return;
      }
      Emit(Copies(b, e.block, e.index));
    }

    /** A branch label with the copies of its edge. */
    method EmitInter(l: Label, b: nat, e: Edge)
      requires Fits(f, plan) && e.block < |f.blocks|
      modifies this`code
      ensures code == old(code) + InterCode(f, plan, l, b, e)
    {
      if plan.hasPhi[e.block] {
        Emit(Define(l));
        EmitPhiEdgeCopies(b, e);
        var t := PassthroughTarget(e.block);
        EmitJmp(BlockLabel(t), None);
      }
    }

    method EmitIf(b: nat, next: Option<Label>)
      requires Fits(f, plan) && b < |f.blocks| && f.blocks[b].kind == If && |f.blocks[b].succs| == 2
               && f.blocks[b].hasControl
      modifies this`code
      ensures code == old(code) + TermCode(f, plan, b, next)
    {
      var thenSucc, elseSucc := f.blocks[b].succs[0], f.blocks[b].succs[1];
      var t0 := PassthroughTarget(thenSucc.block);
      var t1 := PassthroughTarget(elseSucc.block);
      var then_, else_ := BlockLabel(t0), BlockLabel(t1);
      var thenHasPhi, elseHasPhi := plan.hasPhi[thenSucc.block], plan.hasPhi[elseSucc.block];
      if !thenHasPhi && !elseHasPhi {
        EmitIfBranch(b, then_, else_, next);
      } else {
        EmitIfBranch(b, if thenHasPhi then ThenLabel(b) else then_, if elseHasPhi then ElseLabel(b) else else_, None);
        EmitInter(ElseLabel(b), b, elseSucc);
        EmitInter(ThenLabel(b), b, thenSucc);
      }
    }

    method TableLabels(b: nat) returns (labels: seq<Label>)
      requires Fits(f, plan) && b < |f.blocks|
      ensures labels == Labels(f, plan, b)
    {
      labels := [];
      for i := 0 to |f.blocks[b].succs|
        invariant labels == Labels(f, plan, b)[..i]
      {
        var t := PassthroughTarget(f.blocks[b].succs[i].block);
        labels := labels + [BlockLabel(t)];
      }
    }

    /** A table none of whose successors has phis. */
    method EmitTable(b: nat, next: Option<Label>) returns (ok: bool)
      requires Fits(f, plan) && b < |f.blocks| && f.blocks[b].kind == BrTable
      modifies this`code
      ensures ok <==> Emittable(f, plan, b)
      ensures ok ==> code == old(code) + TermCode(f, plan, b, next)
    {
      var blk := f.blocks[b];
      if !blk.hasControl || blk.succs == [] {
        return false;
      }
      for i := 0 to |blk.succs|
        invariant forall j :: 0 <= j < i ==> !plan.hasPhi[blk.succs[j].block]
      {
        if plan.hasPhi[blk.succs[i].block] {
          return false;
        }
      }
      var labels := TableLabels(b);
      if !(0 <= blk.dflt < |labels|) || |blk.cases| > |labels| {
        return false;
      }
      EmitBrTable(b, blk.cases, labels, labels[blk.dflt]);
      ok := true;
      assert code == old(code) + (CasesFrom(b, blk.cases, labels, 0) + [Jump(labels[blk.dflt])]);
    }

    method EmitPlain(b: nat, next: Option<Label>)
      requires Fits(f, plan) && b < |f.blocks| && f.blocks[b].kind == Plain && |f.blocks[b].succs| == 1
      modifies this`code
      ensures code == old(code) + TermCode(f, plan, b, next)
    {
      var succ := f.blocks[b].succs[0];
      EmitPhiEdgeCopies(b, succ);
      var t := PassthroughTarget(succ.block);
      EmitJmp(BlockLabel(t), next);
      assert code == old(code) + (EdgeCode(plan, b, succ) + JumpCode(BlockLabel(t), next));
    }

    /** The end of block `b`. */
    method EmitTerminator(b: nat, next: Option<Label>) returns (ok: bool)
      requires Fits(f, plan) && b < |f.blocks|
      modifies this`code
      ensures ok <==> Emittable(f, plan, b)
      ensures ok ==> code == old(code) + TermCode(f, plan, b, next)
    {
      var blk := f.blocks[b];
      ok := true;
      match blk.kind {
        case Plain =>
          if |blk.succs| != 1 {
            return false;
          }
          EmitPlain(b, next);
        case If =>
          if |blk.succs| != 2 || !blk.hasControl {
            return false;
          }
          EmitIf(b, next);
        case Ret =>
          Emit(Return(b));
        case Unreachable =>
          Emit(Trap(b));
        case BrTable =>
          ok := EmitTable(b, next);
        case _ =>
          ok := false;
      }
    }

    /** Label, values and terminator of block `b`. */
    method EmitBlock(b: nat, next: Option<Label>) returns (ok: bool)
      requires Fits(f, plan) && b < |f.blocks|
      modifies this`code
      ensures ok <==> Emittable(f, plan, b)
      ensures ok ==> code == old(code) + BlockCode(f, plan, b, next)
    {
      Emit(Define(BlockLabel(b)));
      Emit(Values(b));
      ok := EmitTerminator(b, next);
      if ok {
        assert code == old(code) + ([Define(BlockLabel(b)), Values(b)] + TermCode(f, plan, b, next));
      }
    }

    /** The whole function.  When every block can be emitted, the program does on every
        run what the graph does. */
    method EmitFunc() returns (ok: bool)
      requires Fits(f, plan) && code == []
      modifies this`code
      ensures ok <==> AllEmittable(f, plan)
      ensures ok ==> code == Flat(Pieces(f, plan))
    {
      ghost var pieces: seq<seq<Instr>> := [];
      for b := 0 to |f.blocks|
        invariant Prefix(f, plan, pieces) && |pieces| == b && code == Flat(pieces)
      {
        var next := if b + 1 < |f.blocks| then Some(BlockLabel(b + 1)) else None;
        var emitted := EmitBlock(b, next);
        if !emitted {
          return false;
        }
        pieces := PrefixGrows(f, plan, pieces, BlockCode(f, plan, b, next));
      }
      PrefixIsAll(f, plan, pieces);
      ok := true;
    }
  }
}
