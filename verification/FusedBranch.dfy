/** Conditional branches of the flat program as the jumps they are emitted as. */
module FusedBranch {
  import opened Basics
  import opened Cfg
  import opened FlatCode
  import opened FlatSim
  import FC = FusedCompare

  /** The comparison that block `b` branches on, and its operands. */
  datatype Fusion<!S> = Fusion(kind: FC.Kind, width: FC.Width, left: S -> nat, right: S -> nat)

  /** The condition of block `b` is that comparison. */
  ghost predicate Fuses<S(!new)>(m: Machine<S>, b: nat, u: Fusion<S>) {
    forall s: S ::
      FC.Fits(u.width, u.left(s)) && FC.Fits(u.width, u.right(s))
      && (m.cond(b, s) <==> FC.Means(u.kind, u.width, u.left(s), u.right(s)))
  }

  /** Is the jump for a branch taken on `sense` taken in state `s`? */
  ghost predicate Jumps<S>(u: Fusion<S>, sense: bool, s: S)
    requires FC.Fits(u.width, u.left(s)) && FC.Fits(u.width, u.right(s))
  {
    var j := FC.Lowered(u.kind);
    FC.Jumps(if sense then j.0 else j.1, FC.FlagsOf(u.kind, u.width, u.left(s), u.right(s)))
  }

  /** A conditional jump of the flat program is the emitted jump on the flags of the comparison, inverted or not. */
  lemma JumpIfIsJump<S(!new)>(code: seq<Instr>, m: Machine<S>, pc: nat, b: nat, sense: bool, l: Label, u: Fusion<S>,
                              s: S, k: nat)
    requires pc < |code| && code[pc] == JumpIf(b, sense, l) && Fuses(m, b, u)
    ensures FRun(code, m, pc, s, k)
            == if Jumps(u, sense, s) then FGoto(code, m, pc, l, s, k) else FRun(code, m, pc + 1, s, k)
  {
    FC.LoweringIsRight(u.kind, u.width, u.left(s), u.right(s));
  }

  /** So a branch, in whichever of its three forms, goes where the comparison of the operands says. */
  lemma FusedBranchRuns<S(!new)>(f: Func, plan: Plan, m: Machine<S>, code: seq<Instr>, pos: seq<nat>, b: nat, pc: nat,
                                 t0: nat, t1: nat, u: Fusion<S>, s: S, k: nat)
    requires Layout(f, plan, code, pos) && b < |f.blocks| && t0 < |f.blocks| && t1 < |f.blocks| && Fuses(m, b, u)
    requires At(code, pc, BranchCode(b, BlockLabel(t0), BlockLabel(t1), NextLabel(f, b)))
    requires pc + |BranchCode(b, BlockLabel(t0), BlockLabel(t1), NextLabel(f, b))| == pos[b + 1]
    ensures FRun(code, m, pc, s, k)
            == FRun(code, m, pos[if FC.Means(u.kind, u.width, u.left(s), u.right(s)) then t0 else t1], s, k)
  {
    BranchRuns(f, plan, m, code, pos, b, pc, t0, t1, s, k);
  }
}
