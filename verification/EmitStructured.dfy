/** Reconstruction of structured Go control flow from a CFG. */
module EmitStructured {
  import opened Basics
  import opened Cfg
  import opened GoStmt
  import opened StructuredSim
  import opened LoopLabels
  import opened EmitSurvey

  /** What the emitter is given. */
  datatype Table = Edges | Cases | Joins | Follows

  /** The two sides of what is known of the loop stack, and of emitted statements. */
  datatype Fact = Labels | Depths

  /** The emitter works for any post-dominator and loop tables that stay inside the
      function; `m` is the meaning of the code and plays no part in emission. */
  class StructEmitter<S(!new)> {
    const f: Func
    ghost const m: Machine<S>
    const rendering: Rendering
    const postdom: map<nat, nat>
    const loops: map<nat, LoopInfo>
    const dupCap: nat
    const nestCap: nat
    var ctx: seq<Frame>
    var switchDepth: nat
    var labelSeq: nat
    var emitted: set<nat>
    var emitCount: nat
    var depth: nat

    ghost predicate TableOk(table: Table) {
      match table
      case Edges => f.Wired()
      case Cases => f.TablesOk()
      case Joins => forall b :: b in postdom ==> postdom[b] < |f.blocks|
      case Follows => forall b :: b in loops && loops[b].follow.Some? ==> loops[b].follow.value < |f.blocks|
    }

    /** All tables stay inside the function. */
    ghost predicate Tables() {
      forall table {:trigger TableOk(table)} :: TableOk(table)
    }

    ghost predicate Valid()
      reads this
    {
      && Tables() && InOrder(ctx, switchDepth, labelSeq)
      && depth <= nestCap && emitCount <= dupCap
      && emitted <= Upto(|f.blocks|)
    }

    ghost function Tab(): Setting {
      Setting(f, rendering, postdom, loops, dupCap, nestCap)
    }

    /** Where the emitter is when block `b` is next in a region that ends at `stop`. */
    ghost function Where(b: nat, stop: Option<nat>): Pos
      reads this
    {
      Pos(b, stop, Opened(ctx), depth)
    }

    /** What was emitted since `c0` blocks, the set `e0`, were is `sv`. */
    ghost predicate Counted(sv: Survey, c0: nat, e0: set<nat>)
      reads this
    {
      !sv.trouble && emitCount == c0 + sv.count && emitted == e0 + sv.seen
    }

    /** The walks from `qs` were emitted, and that is `sv`. */
    ghost predicate Walked(qs: seq<Pos>, sv: Survey, c0: nat, e0: set<nat>)
      reads this
    {
      ListTo(Tab(), qs, sv) && Counted(sv, c0, e0)
    }

    /** `out` is what was emitted since the loop stack was `c0` and the label counter `l0`. */
    ghost predicate Emitted(out: seq<Stmt>, c0: seq<Frame>, l0: nat)
      reads this
    {
      Clean(out, c0, ctx, l0, labelSeq)
    }

    lemma NothingEmitted()
      ensures Emitted([], ctx, labelSeq)
    {
      LabelledNothing(ctx, labelSeq);
      SealClean([], ctx, ctx, labelSeq, labelSeq);
    }

    constructor (f: Func, ghost m: Machine<S>, rendering: Rendering, postdom: map<nat, nat>, loops: map<nat, LoopInfo>)
      ensures this.f == f && this.m == m && this.rendering == rendering
      ensures this.postdom == postdom && this.loops == loops
      ensures dupCap == 8 * |f.blocks| + 64 && nestCap == 200
      ensures ctx == [] && switchDepth == labelSeq == emitCount == depth == 0 && emitted == {}
    {
      this.f := f;
      this.m := m;
      this.rendering := rendering;
      this.postdom := postdom;
      this.loops := loops;
      dupCap := 8 * |f.blocks| + 64;
      nestCap := 200;
      ctx := [];
      switchDepth, labelSeq, emitCount, depth := 0, 0, 0, 0;
      emitted := {};
    }

    method EmitStructured(entry: Option<nat>, reducible: bool) returns (body: seq<Stmt>, ok: bool)
      requires Tables() && ctx == [] && switchDepth == labelSeq == emitCount == depth == 0 && emitted == {}
      requires entry.Some? ==> entry.value < |f.blocks|
      modifies this
      ensures ok <==> entry.Some? && reducible && (forall h :: h in loops ==> !loops[h].bad)
                      && Structurable(Tab(), entry.value)
      ensures ok ==> forall s, k: nat :: ExecSeq(m, body, s, k) == Over(Run(f, m, entry.value, s, k))
      ensures ok ==> GoodSeq(body) && FreeSeq(body) == {}
      ensures ok ==> emitted == Upto(|f.blocks|)
    {
      body, ok := [], false;
      if entry.None? || !reducible {
        return;
      }
      if exists h :: h in loops && loops[h].bad {
        return;
      }
      ghost var sv;
      assert Opened(ctx) == [];
      SealOrder(ctx, switchDepth, labelSeq);
      assert Opened(ctx) == [];
      body, ok, sv := Region(entry, None);
      if !ok {
        FailedAnswer(Tab(), entry.value);
        body := [];
        return;
      }
      SettledAnswer(Tab(), entry.value, sv);
      if |emitted| != |f.blocks| {
        assert emitted != Upto(|f.blocks|);
        body, ok := [], false;
        return;
      }
      AllEmitted(emitted, |f.blocks|);
      OpenClean(body, [], ctx, 0, labelSeq);
      Executes(entry.value, body);
    }

    lemma Executes(entry: nat, body: seq<Stmt>)
      requires Sim(f, m, body, entry, None, ctx, switchDepth) && ctx == []
      ensures forall s, k: nat :: ExecSeq(m, body, s, k) == Over(Run(f, m, entry, s, k))
    {
      forall s, k: nat
        ensures ExecSeq(m, body, s, k) == Over(Run(f, m, entry, s, k))
      {
        assert Accounts(f, m, ExecSeq(m, body, s, k), Run(f, m, entry, s, k), None, ctx, switchDepth);
        var o := ExecSeq(m, body, s, k);
        if o.Done? {
          NoTarget(o.c, switchDepth);
        }
      }
    }

    method Region(b: Option<nat>, stop: Option<nat>) returns (out: seq<Stmt>, ok: bool, ghost sv: Survey)
      requires Valid() && (b.Some? ==> b.value < |f.blocks|)
      modifies this
      decreases nestCap + 1 - depth, 0
      ensures depth == old(depth) && switchDepth == old(switchDepth)
      ensures ok ==> Valid() && emitCount >= old(emitCount) && Opened(ctx) == old(Opened(ctx))
      ensures ok ==> Emitted(out, old(ctx), old(labelSeq)) && Counted(sv, old(emitCount), old(emitted))
      ensures ok && (b.None? || b == stop) ==> out == []
      ensures ok && b.Some? && b != stop ==>
                Sim(f, m, out, b.value, stop, ctx, switchDepth) && emitCount > old(emitCount)
                && LookTo(Tab(), Pos(b.value, stop, old(Opened(ctx)), depth + 1), sv)
      ensures !ok && b.Some? && b != stop ==>
                Fails(Tab(), Pos(b.value, stop, old(Opened(ctx)), depth + 1), old(emitCount))
    {
      out, ok, sv := [], false, Nothing;
      depth := depth + 1;
      ghost var start := Where(if b.Some? then b.value else 0, stop);
      if depth > nestCap {
        TooDeep(Tab(), start, emitCount);
        depth := depth - 1;
        return;
      }
      var cur: Option<nat> := b;
      NothingEmitted();
      LeadsStart(Tab(), start);
      while cur.Some? && cur != stop
        invariant Valid() && depth == old(depth) + 1 && switchDepth == old(switchDepth)
        invariant emitCount >= old(emitCount)
        invariant cur.Some? ==> cur.value < |f.blocks|
        invariant Emitted(out, old(ctx), old(labelSeq))
        invariant || (out == [] && cur == b)
                  || (b.Some? && b != stop && emitCount > old(emitCount)
                      && Sim(f, m, out, b.value, if cur.Some? then cur else stop, ctx, switchDepth))
        invariant Opened(ctx) == start.open && Counted(sv, old(emitCount), old(emitted))
        invariant b.Some? && b != stop ==> Leads(Tab(), start, Onward(start, cur), sv)
        decreases dupCap - emitCount
      {
        ghost var c0, l0, here := ctx, labelSeq, Where(cur.value, stop);
        assert Onward(start, cur) == [here];
        ghost var inner;
        var piece, next: Option<nat>;
        piece, next, ok, inner := Piece(cur.value, stop);
        if !ok {
          LeadsFails(Tab(), start, here, sv, old(emitCount));
          depth := depth - 1;
          return;
        }
        Append(b, cur.value, stop, next, out, piece, old(ctx), c0, old(labelSeq), l0);
        LeadsOn(Tab(), start, here, sv, inner);
        sv := Plus(sv, Plus(Here(Tab(), here), inner));
        out := out + piece;
        cur := next;
      }
      if b.Some? && b != stop {
        LeadsEnd(Tab(), start, sv);
      }
      depth := depth - 1;
      ok := true;
    }

    /** What is emitted for block `b` in a region: a loop that begins there, or the block. */
    method Piece(b: nat, stop: Option<nat>)
      returns (out: seq<Stmt>, next: Option<nat>, ok: bool, ghost inner: Survey)
      requires Valid() && b < |f.blocks|
      modifies this
      decreases nestCap + 1 - depth, 6
      ensures depth == old(depth) && switchDepth == old(switchDepth)
      ensures ok ==> Valid() && emitCount > old(emitCount) && Opened(ctx) == old(Opened(ctx))
      ensures ok ==> Emitted(out, old(ctx), old(labelSeq)) && (next.Some? ==> next.value < |f.blocks|)
      ensures ok ==> Sim(f, m, out, b, if next.Some? then next else stop, ctx, switchDepth)
      ensures ok ==> PieceDone(old(Where(b, stop)), next, inner, old(emitCount), old(emitted))
      ensures !ok ==> Fails(Tab(), old(Where(b, stop)), old(emitCount))
    {
      SameInside(b);
      if b in loops && !InsideLoop(b) {
        out, next, ok, inner := OpenLoop(b, stop);
        if ok && next.None? {
          AnyStop(b, out, stop);
        }
      } else {
        out, next, ok, inner := Block(b, stop);
      }
    }

    /** A loop without a follow block never falls through. */
    lemma AnyStop(b: nat, out: seq<Stmt>, stop: Option<nat>)
      requires Sim(f, m, out, b, None, ctx, switchDepth)
      ensures Sim(f, m, out, b, stop, ctx, switchDepth)
    {
      forall s, k: nat
        ensures Accounts(f, m, ExecSeq(m, out, s, k), Run(f, m, b, s, k), stop, ctx, switchDepth)
      {
        AccountsAnyStop(f, m, ExecSeq(m, out, s, k), Run(f, m, b, s, k), stop, ctx, switchDepth);
      }
    }

    lemma SameInside(b: nat)
      ensures InsideLoop(b) <==> Inside(Opened(ctx), b)
    {
      if InsideLoop(b) {
        var i :| 0 <= i < |ctx| && ctx[i].header == b;
        assert Opened(ctx)[i].header == b;
      }
    }

    /** The walk at `p`: its inner regions are `inner`, and it goes on with `next`. */
    ghost predicate PieceDone(p: Pos, next: Option<nat>, inner: Survey, c0: nat, e0: set<nat>)
      reads this
    {
      && ListTo(Tab(), Inner(Tab(), p), inner) && Counted(Plus(Here(Tab(), p), inner), c0, e0)
      && Next(Tab(), p) == Onward(p, next)
    }

    /** `for {}` around the region of a loop header. */
    method OpenLoop(b: nat, stop: Option<nat>)
      returns (out: seq<Stmt>, next: Option<nat>, ok: bool, ghost sv: Survey)
      requires Valid() && b < |f.blocks| && b in loops && !InsideLoop(b)
      modifies this
      decreases nestCap + 1 - depth, 5
      ensures depth == old(depth) && switchDepth == old(switchDepth)
      ensures ok ==> Valid() && emitCount > old(emitCount) && Opened(ctx) == old(Opened(ctx))
      ensures ok ==> Emitted(out, old(ctx), old(labelSeq))
      ensures ok ==> next == loops[b].follow && Sim(f, m, out, b, next, ctx, switchDepth)
      ensures next.Some? ==> next.value < |f.blocks|
      ensures ok ==> PieceDone(old(Where(b, stop)), next, sv, old(emitCount), old(emitted))
      ensures !ok ==> Fails(Tab(), old(Where(b, stop)), old(emitCount))
    {
      var fr := Frame(b, loops[b].follow, switchDepth, None);
      next := loops[b].follow;
      assert TableOk(Follows);
      ghost var p := Where(b, stop);
      SameInside(b);
      ctx := ctx + [fr];
      OpenedMore(old(ctx), fr);
      OpenFrame(old(ctx), fr);
      var forBody;
      forBody, ok, sv := Region(Some(b), None);
      ghost var c1 := ctx;
      if !ok {
        LoopFails(p, old(emitCount));
        return [], next, false, sv;
      }
      OpenedLess(c1, old(ctx), fr);
      var lbl := ctx[|ctx| - 1].lbl;
      ctx := ctx[..|ctx| - 1];
      out := [ForStmt(lbl, forBody)];
      CloseLoop(forBody, old(ctx), c1, fr, old(labelSeq));
      LoopDone(p, sv);
    }

    /** A frame goes on the stack. */
    lemma OpenFrame(c0: seq<Frame>, fr: Frame)
      requires InOrder(c0, switchDepth, labelSeq)
      requires fr.lbl.None? && fr.switchDepth == switchDepth && ctx == c0 + [fr]
      ensures InOrder(ctx, switchDepth, labelSeq)
    {
      OpenOrder(c0, switchDepth, labelSeq);
      SealOrder(ctx, switchDepth, labelSeq);
    }

    lemma OpenedMore(c: seq<Frame>, fr: Frame)
      ensures Opened(c + [fr]) == Opened(c) + [Open(fr.header, fr.follow)]
    {
    }

    lemma OpenedLess(c1: seq<Frame>, c0: seq<Frame>, fr: Frame)
      requires Opened(c1) == Opened(c0 + [fr])
      ensures c1 != [] && Opened(c1[..|c1| - 1]) == Opened(c0)
    {
      assert |Opened(c1)| == |c1| && |Opened(c0 + [fr])| == |c0| + 1;
      forall k | 0 <= k < |c0|
        ensures Opened(c1[..|c1| - 1])[k] == Opened(c0)[k]
      {
        assert Opened(c1)[k] == Opened(c0 + [fr])[k];
      }
    }

    lemma LoopFails(p: Pos, c0: nat)
      requires Opens(Tab(), p) && p.depth <= nestCap
      requires Fails(Tab(), Pos(p.b, None, p.open + [Open(p.b, loops[p.b].follow)], p.depth + 1), c0)
      ensures Fails(Tab(), p, c0)
    {
      InnerFails(Tab(), p, c0);
    }

    lemma LoopDone(p: Pos, sv: Survey)
      requires Opens(Tab(), p)
      requires LookTo(Tab(), Pos(p.b, None, p.open + [Open(p.b, loops[p.b].follow)], p.depth + 1), sv)
      ensures ListTo(Tab(), Inner(Tab(), p), sv) && Plus(Here(Tab(), p), sv) == sv
      ensures Next(Tab(), p) == Onward(p, loops[p.b].follow)
    {
      SameTo(Tab(), Pos(p.b, None, p.open + [Open(p.b, loops[p.b].follow)], p.depth + 1), sv);
      PlusNothing(sv);
    }

    /** One block: its values and its terminator. */
    method Block(b: nat, stop: Option<nat>)
      returns (out: seq<Stmt>, next: Option<nat>, ok: bool, ghost sv: Survey)
      requires Valid() && b < |f.blocks| && !Opens(Tab(), Where(b, stop))
      modifies this
      decreases nestCap + 1 - depth, 5
      ensures depth == old(depth) && switchDepth == old(switchDepth)
      ensures ok ==> Valid() && emitCount > old(emitCount) && Opened(ctx) == old(Opened(ctx))
      ensures ok ==> Emitted(out, old(ctx), old(labelSeq))
      ensures ok ==> (next.Some? ==> next.value < |f.blocks|)
      ensures ok ==> Sim(f, m, out, b, if next.Some? then next else stop, ctx, switchDepth)
      ensures ok ==> PieceDone(old(Where(b, stop)), next, sv, old(emitCount), old(emitted))
      ensures !ok ==> Fails(Tab(), old(Where(b, stop)), old(emitCount))
    {
      sv := Nothing;
      ghost var p := Where(b, stop);
      emitted := emitted + {b};
      emitCount := emitCount + 1;
      if emitCount > dupCap || !rendering.values(b) {
        HereFails(Tab(), p, old(emitCount));
        return [], None, false, sv;
      }
      var rest;
      rest, next, ok, sv := Terminator(b, stop);
      out := [Values(b)] + rest;
      if ok {
        ValuesThen(b, rest, if next.Some? then next else stop, old(ctx), old(labelSeq));
      } else {
        BlockFails(p, old(emitCount));
      }
    }

    lemma ValuesThen(b: nat, rest: seq<Stmt>, stop: Option<nat>, c0: seq<Frame>, l0: nat)
      requires Emitted(rest, c0, l0) && SimTerminator(f, m, rest, b, stop, ctx, switchDepth)
      ensures Emitted([Values(b)] + rest, c0, l0) && Sim(f, m, [Values(b)] + rest, b, stop, ctx, switchDepth)
    {
      OpenClean(rest, c0, ctx, l0, labelSeq);
      SimBlock(f, m, rest, b, stop, ctx, switchDepth);
      ConcatLabels([Values(b)], rest);
      assert DeclaredSeq([Values(b)]) == {} && FreeSeq([Values(b)]) == {};
      SealClean([Values(b)] + rest, c0, ctx, l0, labelSeq);
    }

    lemma BlockFails(p: Pos, c0: nat)
      requires !Opens(Tab(), p) && p.depth <= nestCap
      requires !Fine(Tab(), p.b) || ListFails(Tab(), Inner(Tab(), p), c0 + 1)
      ensures Fails(Tab(), p, c0)
    {
      if !Fine(Tab(), p.b) {
        HereFails(Tab(), p, c0);
      } else {
        InnerFails(Tab(), p, c0);
      }
    }

    method Terminator(b: nat, stop: Option<nat>)
      returns (out: seq<Stmt>, next: Option<nat>, ok: bool, ghost sv: Survey)
      requires Valid() && b < |f.blocks| && !Opens(Tab(), Where(b, stop)) && rendering.values(b)
      modifies this
      decreases nestCap + 1 - depth, 4
      ensures depth == old(depth) && switchDepth == old(switchDepth)
      ensures ok ==> Valid() && emitCount >= old(emitCount) && Opened(ctx) == old(Opened(ctx))
      ensures ok ==> Emitted(out, old(ctx), old(labelSeq))
      ensures ok ==> (next.Some? ==> next.value < |f.blocks|)
      ensures ok ==> SimTerminator(f, m, out, b, if next.Some? then next else stop, ctx, switchDepth)
      ensures ok ==> Fine(Tab(), b) && Counted(sv, old(emitCount), old(emitted))
      ensures ok ==> ListTo(Tab(), Inner(Tab(), old(Where(b, stop))), sv)
                     && Next(Tab(), old(Where(b, stop))) == Onward(old(Where(b, stop)), next)
      ensures !ok ==> !Fine(Tab(), b) || ListFails(Tab(), Inner(Tab(), old(Where(b, stop))), old(emitCount))
    {
      out, next, ok, sv := [], None, false, Nothing;
      EmptyTo(Tab());
      var blk := f.blocks[b];
      match blk.kind
      case Ret =>
        if !rendering.ret(b) {
          return;
        }
        out, ok := [Return(b)], true;
        LeafTerminator(b, out, stop);
      case Unreachable =>
        out, ok := [TrapCall(b), ForStmt(None, [])], true;
        LeafTerminator(b, out, stop);
      case Throw =>
        if !rendering.throws(b) {
          return;
        }
        out, ok := [ThrowStmt(b)], true;
        LeafTerminator(b, out, stop);
      case Plain =>
        if |blk.succs| != 1 {
          return;
        }
        assert TableOk(Edges);
        out, next, ok := GoTo(blk.succs[0].block, b, blk.succs[0].index, stop);
      case If =>
        out, next, ok, sv := EmitIf(b, stop);
      case BrTable =>
        out, next, ok, sv := EmitSwitch(b, stop);
      case Invalid =>
    }

    method EmitIf(b: nat, stop: Option<nat>)
      returns (out: seq<Stmt>, next: Option<nat>, ok: bool, ghost sv: Survey)
      requires Valid() && b < |f.blocks| && f.blocks[b].kind == If
      requires !Opens(Tab(), Where(b, stop)) && rendering.values(b)
      modifies this
      decreases nestCap + 1 - depth, 3
      ensures depth == old(depth) && switchDepth == old(switchDepth)
      ensures ok ==> Valid() && emitCount >= old(emitCount) && Opened(ctx) == old(Opened(ctx))
      ensures ok ==> Emitted(out, old(ctx), old(labelSeq))
      ensures ok ==> (next.Some? ==> next.value < |f.blocks|)
      ensures ok ==> SimTerminator(f, m, out, b, if next.Some? then next else stop, ctx, switchDepth)
      ensures ok ==> Fine(Tab(), b) && Counted(sv, old(emitCount), old(emitted))
      ensures ok ==> ListTo(Tab(), Inner(Tab(), old(Where(b, stop))), sv)
                     && Next(Tab(), old(Where(b, stop))) == Onward(old(Where(b, stop)), next)
      ensures !ok ==> !Fine(Tab(), b) || ListFails(Tab(), Inner(Tab(), old(Where(b, stop))), old(emitCount))
    {
      out, next, ok, sv := [], None, false, Nothing;
      var blk := f.blocks[b];
      if |blk.succs| != 2 || !blk.hasControl {
        return;
      }
      if blk.succs[0].block == blk.succs[1].block {
        return;
      }
      var join := if b in postdom then Some(postdom[b]) else None;
      assert TableOk(Joins);
      if !rendering.control(b) {
        return;
      }
      ghost var p := Where(b, stop);
      var thenStmts, elseStmts;
      thenStmts, elseStmts, ok, sv := TwoArms(b, join);
      if !ok {
        BranchFails(p, old(emitCount));
        return;
      }
      BranchDone(p, sv);
      out, next := Join(b, [IfStmt(b, thenStmts, elseStmts)], join, stop, old(ctx), old(labelSeq));
      NextOfBranch(p, next);
      ok := true;
    }

    /** Both arms of an `if`, and what they make of it. */
    method TwoArms(b: nat, join: Option<nat>)
      returns (thenStmts: seq<Stmt>, elseStmts: seq<Stmt>, ok: bool, ghost sv: Survey)
      requires Valid() && b < |f.blocks| && f.blocks[b].kind == If && |f.blocks[b].succs| == 2
      modifies this
      decreases nestCap + 1 - depth, 2, 1
      ensures depth == old(depth) && switchDepth == old(switchDepth)
      ensures ok ==> Valid() && emitCount >= old(emitCount) && Opened(ctx) == old(Opened(ctx))
      ensures ok ==> Emitted([IfStmt(b, thenStmts, elseStmts)], old(ctx), old(labelSeq))
      ensures ok ==> SimTerminator(f, m, [IfStmt(b, thenStmts, elseStmts)], b, join, ctx, switchDepth)
      ensures ok ==> ArmsDone(Tab(), old(Where(b, None)), f.blocks[b].succs, join, 2, sv)
                     && Counted(sv, old(emitCount), old(emitted))
      ensures !ok ==> ArmsFail(Tab(), old(Where(b, None)), f.blocks[b].succs, join, old(emitCount))
    {
      var es := f.blocks[b].succs;
      ghost var p := Where(b, None);
      ArmsStart(Tab(), p, es, join);
      elseStmts := [];
      thenStmts, ok, sv := Arm(b, 0, join, p, Nothing, emitCount, emitted);
      if !ok {
        return;
      }
      ghost var c1, l1 := ctx, labelSeq;
      elseStmts, ok, sv := Arm(b, 1, join, p, sv, old(emitCount), old(emitted));
      if !ok {
        return;
      }
      IfDone(b, thenStmts, elseStmts, join, old(ctx), c1, old(labelSeq), l1);
    }

    /** Arm `i` of a branch, with the arms before it emitted. */
    method Arm(b: nat, i: nat, join: Option<nat>, ghost p: Pos, ghost acc: Survey, ghost n0: nat, ghost e0: set<nat>)
      returns (out: seq<Stmt>, ok: bool, ghost sv: Survey)
      requires Valid() && b < |f.blocks| && i < |f.blocks[b].succs| && p == Where(b, None)
      requires ArmsDone(Tab(), p, f.blocks[b].succs, join, i, acc) && Counted(acc, n0, e0)
      modifies this
      decreases nestCap + 1 - depth, 1, 2
      ensures depth == old(depth) && switchDepth == old(switchDepth)
      ensures ok ==> Valid() && emitCount >= old(emitCount) && Opened(ctx) == old(Opened(ctx))
      ensures ok ==> Emitted(out, old(ctx), old(labelSeq))
      ensures ok ==> SimEdge(f, m, out, b, f.blocks[b].succs[i], join, ctx, switchDepth)
      ensures ok ==> ArmsDone(Tab(), p, f.blocks[b].succs, join, i + 1, sv) && Counted(sv, n0, e0)
      ensures !ok ==> ArmsFail(Tab(), p, f.blocks[b].succs, join, n0)
    {
      assert TableOk(Edges);
      ghost var one;
      out, ok, one := Branch(b, f.blocks[b].succs[i], join);
      sv := Plus(acc, one);
      if ok {
        ArmsNext(Tab(), p, f.blocks[b].succs, join, i, acc, one);
      } else {
        ArmsFailed(Tab(), p, f.blocks[b].succs, join, i, acc, n0);
      }
    }

    lemma IfDone(b: nat, thenStmts: seq<Stmt>, elseStmts: seq<Stmt>, join: Option<nat>,
                 c0: seq<Frame>, c1: seq<Frame>, l0: nat, l1: nat)
      requires Valid() && b < |f.blocks| && f.blocks[b].kind == If && |f.blocks[b].succs| == 2
      requires SimEdge(f, m, thenStmts, b, f.blocks[b].succs[0], join, c1, switchDepth)
      requires SimEdge(f, m, elseStmts, b, f.blocks[b].succs[1], join, ctx, switchDepth)
      requires Clean(thenStmts, c0, c1, l0, l1)
      requires Emitted(elseStmts, c1, l1)
      ensures Emitted([IfStmt(b, thenStmts, elseStmts)], c0, l0)
      ensures SimTerminator(f, m, [IfStmt(b, thenStmts, elseStmts)], b, join, ctx, switchDepth)
    {
      OpenClean(thenStmts, c0, c1, l0, l1);
      OpenClean(elseStmts, c1, ctx, l1, labelSeq);
      OpenOrder(ctx, switchDepth, labelSeq);
      SimEdgeExtends(f, m, thenStmts, b, f.blocks[b].succs[0], join, c1, ctx, switchDepth, l1, labelSeq);
      SimIf(f, m, b, thenStmts, elseStmts, join, ctx, switchDepth);
      LabelledSeq(DeclaredSeq(thenStmts), FreeSeq(thenStmts), DeclaredSeq(elseStmts), FreeSeq(elseStmts),
                  c0, c1, ctx, l0, l1, labelSeq);
      OneStmt(IfStmt(b, thenStmts, elseStmts));
      SealClean([IfStmt(b, thenStmts, elseStmts)], c0, ctx, l0, labelSeq);
    }

    /** What the arms of a branch come to. */
    lemma BranchDone(p: Pos, sv: Survey)
      requires !Opens(Tab(), p) && p.b < |f.blocks| && rendering.values(p.b) && rendering.control(p.b)
      requires var blk := f.blocks[p.b];
               && blk.hasControl && ArmsDone(Tab(), p.(stop := None), blk.succs, JoinOf(Tab(), p.b), |blk.succs|, sv)
               && ((blk.kind == If && |blk.succs| == 2 && blk.succs[0].block != blk.succs[1].block)
                   || (blk.kind == BrTable && |blk.succs| > 0 && |blk.cases| == |blk.succs|))
      ensures Fine(Tab(), p.b) && ListTo(Tab(), Inner(Tab(), p), sv)
    {
      ArmsEnd(Tab(), p.(stop := None), f.blocks[p.b].succs, JoinOf(Tab(), p.b), sv);
      SameArms(p, p.(stop := None), f.blocks[p.b].succs, JoinOf(Tab(), p.b));
    }

    lemma BranchFails(p: Pos, c0: nat)
      requires !Opens(Tab(), p) && p.b < |f.blocks|
      requires f.blocks[p.b].kind == If || f.blocks[p.b].kind == BrTable
      requires ArmsFail(Tab(), p.(stop := None), f.blocks[p.b].succs, JoinOf(Tab(), p.b), c0)
      ensures !Fine(Tab(), p.b) || ListFails(Tab(), Inner(Tab(), p), c0)
    {
      ArmsGiveUp(Tab(), p.(stop := None), f.blocks[p.b].succs, JoinOf(Tab(), p.b), c0);
      SameArms(p, p.(stop := None), f.blocks[p.b].succs, JoinOf(Tab(), p.b));
    }

    /** Where a region goes on after a branch. */
    lemma NextOfBranch(p: Pos, next: Option<nat>)
      requires !Opens(Tab(), p) && Fine(Tab(), p.b)
      requires f.blocks[p.b].kind == If || f.blocks[p.b].kind == BrTable
      requires var join := JoinOf(Tab(), p.b);
               next == if join.Some? && Leaves(p.open, join.value) then None else join
      ensures Next(Tab(), p) == Onward(p, next)
    {
    }

    method EmitSwitch(b: nat, stop: Option<nat>)
      returns (out: seq<Stmt>, next: Option<nat>, ok: bool, ghost sv: Survey)
      requires Valid() && b < |f.blocks| && f.blocks[b].kind == BrTable
      requires !Opens(Tab(), Where(b, stop)) && rendering.values(b)
      modifies this
      decreases nestCap + 1 - depth, 3
      ensures depth == old(depth) && switchDepth == old(switchDepth)
      ensures ok ==> Valid() && emitCount >= old(emitCount) && Opened(ctx) == old(Opened(ctx))
      ensures ok ==> Emitted(out, old(ctx), old(labelSeq))
      ensures ok ==> (next.Some? ==> next.value < |f.blocks|)
      ensures ok ==> SimTerminator(f, m, out, b, if next.Some? then next else stop, ctx, switchDepth)
      ensures ok ==> Fine(Tab(), b) && Counted(sv, old(emitCount), old(emitted))
      ensures ok ==> ListTo(Tab(), Inner(Tab(), old(Where(b, stop))), sv)
                     && Next(Tab(), old(Where(b, stop))) == Onward(old(Where(b, stop)), next)
      ensures !ok ==> !Fine(Tab(), b) || ListFails(Tab(), Inner(Tab(), old(Where(b, stop))), old(emitCount))
    {
      out, next, ok, sv := [], None, false, Nothing;
      var blk := f.blocks[b];
      if |blk.succs| == 0 || !blk.hasControl || |blk.cases| != |blk.succs| {
        return;
      }
      var join := if b in postdom then Some(postdom[b]) else None;
      assert TableOk(Joins);
      if !rendering.control(b) {
        return;
      }
      ghost var p := Where(b, stop);
      var clauses;
      clauses, ok, sv := SwitchArms(b, join);
      if !ok {
        BranchFails(p, old(emitCount));
        return;
      }
      BranchDone(p, sv);
      out, next := Join(b, [SwitchStmt(b, clauses)], join, stop, old(ctx), old(labelSeq));
      NextOfBranch(p, next);
    }

    /** The switch and its clauses. */
    method SwitchArms(b: nat, join: Option<nat>) returns (clauses: seq<Clause>, ok: bool, ghost sv: Survey)
      requires Valid() && b < |f.blocks| && f.blocks[b].kind == BrTable && |f.blocks[b].cases| == |f.blocks[b].succs|
      modifies this
      decreases nestCap + 1 - depth, 2, 1
      ensures depth == old(depth) && switchDepth == old(switchDepth)
      ensures ok ==> Valid() && emitCount >= old(emitCount) && Opened(ctx) == old(Opened(ctx))
      ensures ok ==> Emitted([SwitchStmt(b, clauses)], old(ctx), old(labelSeq))
      ensures ok ==> SimTerminator(f, m, [SwitchStmt(b, clauses)], b, join, ctx, switchDepth)
      ensures ok ==> ArmsDone(Tab(), old(Where(b, None)), f.blocks[b].succs, join, |f.blocks[b].succs|, sv)
                     && Counted(sv, old(emitCount), old(emitted))
      ensures !ok ==> ArmsFail(Tab(), old(Where(b, None)), f.blocks[b].succs, join, old(emitCount))
    {
      assert TableOk(Cases);
      OpenOrder(ctx, switchDepth, labelSeq);
      switchDepth := switchDepth + 1;
      SealOrder(ctx, switchDepth, labelSeq);
      ghost var inner := switchDepth;
      clauses, ok, sv := EmitClauses(b, join, inner);
      if !ok {
        switchDepth := switchDepth - 1;
        return;
      }
      OpenOrder(ctx, switchDepth, labelSeq);
      OpenClauses(b, clauses, |f.blocks[b].succs|, join, inner, old(ctx), ctx, old(labelSeq), labelSeq);
      switchDepth := switchDepth - 1;
      SealOrder(ctx, switchDepth, labelSeq);
      SwitchDone(b, clauses, join, old(ctx), old(labelSeq), inner);
    }

    /** The clauses of a switch, one per successor, emitted inside the switch. */
    method EmitClauses(b: nat, join: Option<nat>, ghost inner: nat)
      returns (clauses: seq<Clause>, ok: bool, ghost sv: Survey)
      requires Valid() && b < |f.blocks| && inner == switchDepth > 0 && Shallow(ctx, inner - 1)
      requires |f.blocks[b].cases| == |f.blocks[b].succs|
      modifies this
      decreases nestCap + 1 - depth, 2, 0
      ensures depth == old(depth) && switchDepth == old(switchDepth)
      ensures ok ==> Valid() && emitCount >= old(emitCount) && Opened(ctx) == old(Opened(ctx))
      ensures ok ==> Gathered(b, clauses, |f.blocks[b].succs|, join, inner, old(ctx), old(labelSeq))
      ensures ok ==> ArmsDone(Tab(), old(Where(b, None)), f.blocks[b].succs, join, |f.blocks[b].succs|, sv)
                     && Counted(sv, old(emitCount), old(emitted))
      ensures !ok ==> ArmsFail(Tab(), old(Where(b, None)), f.blocks[b].succs, join, old(emitCount))
    {
      var blk := f.blocks[b];
      ghost var p := Where(b, None);
      clauses, ok, sv := [], true, Nothing;
      NoClauses(b, join, inner);
      ArmsStart(Tab(), p, blk.succs, join);
      for si := 0 to |blk.succs|
        invariant Valid() && depth == old(depth) && switchDepth == inner
        invariant ok && emitCount >= old(emitCount)
        invariant Gathered(b, clauses, si, join, inner, old(ctx), old(labelSeq))
        invariant Opened(ctx) == p.open && Counted(sv, old(emitCount), old(emitted))
        invariant ArmsDone(Tab(), p, blk.succs, join, si, sv)
      {
        ghost var c1, l1 := ctx, labelSeq;
        var arm;
        arm, ok, sv := Arm(b, si, join, p, sv, old(emitCount), old(emitted));
        if !ok {
          return;
        }
        var clause := Clause(si == blk.dflt, if si == blk.dflt then [] else blk.cases[si], arm);
        AddClause(b, clauses, clause, si, join, old(ctx), c1, old(labelSeq), l1);
        clauses := clauses + [clause];
      }
    }

    /** Past a branching statement: continue at the join, unless the join is itself
        the target of a jump. */
    method Join(b: nat, st: seq<Stmt>, join: Option<nat>, stop: Option<nat>, ghost c0: seq<Frame>, ghost l0: nat)
      returns (out: seq<Stmt>, next: Option<nat>)
      requires Valid() && (join.Some? ==> join.value < |f.blocks|)
      requires SimTerminator(f, m, st, b, join, ctx, switchDepth)
      requires Emitted(st, c0, l0)
      modifies this`ctx, this`labelSeq
      ensures Valid()
      ensures Emitted(out, c0, l0)
      ensures next.Some? ==> next.value < |f.blocks|
      ensures SimTerminator(f, m, out, b, if next.Some? then next else stop, ctx, switchDepth)
      ensures next == (if join.Some? && Leaves(old(Opened(ctx)), join.value) then None else join)
      ensures Opened(ctx) == old(Opened(ctx))
    {
      if join.None? {
        forall s, k: nat
          ensures Accounts(f, m, ExecSeq(m, st, s, k), RunTerminator(f, m, b, s, k), stop, ctx, switchDepth)
        {
          AccountsAnyStop(f, m, ExecSeq(m, st, s, k), RunTerminator(f, m, b, s, k), stop, ctx, switchDepth);
        }
        return st, None;
      }
      ghost var c1, l1 := ctx, labelSeq;
      OpenClean(st, c0, ctx, l0, labelSeq);
      var js, jumps := Jump(join.value);
      OpenClean(js, c1, ctx, l1, labelSeq);
      OpenOrder(ctx, switchDepth, labelSeq);
      forall s, k: nat
        ensures Accounts(f, m, ExecSeq(m, st, s, k), RunTerminator(f, m, b, s, k), join, ctx, switchDepth)
      {
        AccountsExtends(f, m, ExecSeq(m, st, s, k), RunTerminator(f, m, b, s, k), join, c1, ctx,
                        switchDepth, l1, labelSeq);
      }
      if jumps {
        SimTerminatorThen(f, m, st, js, b, join.value, stop, ctx, switchDepth);
        LabelledSeq(DeclaredSeq(st), FreeSeq(st), DeclaredSeq(js), FreeSeq(js), c0, c1, ctx, l0, l1, labelSeq);
        ConcatLabels(st, js);
        SealClean(st + js, c0, ctx, l0, labelSeq);
        return st + js, None;
      }
      return st, join;
    }

    /** The arm of edge `e` was emitted, and that is `sv`. */
    ghost predicate ArmWalked(p: Pos, e: Edge, join: Option<nat>, sv: Survey, c0: nat, e0: set<nat>)
      reads this
    {
      rendering.copies(p.b, e.block, e.index) && Walked(EmitSurvey.Arm(p, e.block, join), sv, c0, e0)
    }

    ghost predicate ArmLost(p: Pos, e: Edge, join: Option<nat>, c0: nat) {
      !rendering.copies(p.b, e.block, e.index) || ListFails(Tab(), EmitSurvey.Arm(p, e.block, join), c0)
    }

    lemma ArmOn(p: Pos, e: Edge, join: Option<nat>, sv: Survey, c0: nat, e0: set<nat>)
      requires rendering.copies(p.b, e.block, e.index) && !Leaves(p.open, e.block) && Some(e.block) != join
      requires LookTo(Tab(), Pos(e.block, join, p.open, p.depth + 1), sv) && Counted(sv, c0, e0)
      ensures ArmWalked(p, e, join, sv, c0, e0)
    {
      SameTo(Tab(), Pos(e.block, join, p.open, p.depth + 1), sv);
    }

    /** One arm of a branch: the transition, then the region up to the join. */
    method Branch(b: nat, e: Edge, join: Option<nat>) returns (out: seq<Stmt>, ok: bool, ghost sv: Survey)
      requires Valid() && b < |f.blocks| && e.block < |f.blocks|
      modifies this
      decreases nestCap + 1 - depth, 1, 1
      ensures depth == old(depth) && switchDepth == old(switchDepth)
      ensures ok ==> Valid() && emitCount >= old(emitCount) && Opened(ctx) == old(Opened(ctx))
      ensures ok ==> Emitted(out, old(ctx), old(labelSeq))
      ensures ok ==> SimEdge(f, m, out, b, e, join, ctx, switchDepth)
      ensures ok ==> ArmWalked(old(Where(b, None)), e, join, sv, old(emitCount), old(emitted))
      ensures !ok ==> ArmLost(old(Where(b, None)), e, join, old(emitCount))
    {
      sv := Nothing;
      ghost var p := Where(b, None);
      var st, next;
      st, next, ok := GoTo(e.block, b, e.index, join);
      if !ok {
        return [], false, sv;
      }
      if next.None? {
        EmptyTo(Tab());
        return st, true, sv;
      }
      out, ok, sv := ArmRegion(b, e, join, st, p, old(ctx), old(labelSeq));
    }

    /** The region of an arm, after its transition `st`. */
    method ArmRegion(b: nat, e: Edge, join: Option<nat>, st: seq<Stmt>, ghost p: Pos, ghost c0: seq<Frame>,
                     ghost l0: nat)
      returns (out: seq<Stmt>, ok: bool, ghost sv: Survey)
      requires Valid() && b < |f.blocks| && e.block < |f.blocks| && Some(e.block) != join
      requires p == Where(b, None) && !Leaves(p.open, e.block) && rendering.copies(b, e.block, e.index)
      requires Emitted(st, c0, l0) && SimEdge(f, m, st, b, e, Some(e.block), ctx, switchDepth)
      modifies this
      decreases nestCap + 1 - depth, 1, 0
      ensures depth == old(depth) && switchDepth == old(switchDepth)
      ensures ok ==> Valid() && emitCount >= old(emitCount) && Opened(ctx) == old(Opened(ctx))
      ensures ok ==> Emitted(out, c0, l0)
      ensures ok ==> SimEdge(f, m, out, b, e, join, ctx, switchDepth)
      ensures ok ==> ArmWalked(p, e, join, sv, old(emitCount), old(emitted))
      ensures !ok ==> ArmLost(p, e, join, old(emitCount))
    {
      ghost var c1, l1 := ctx, labelSeq;
      var rest;
      rest, ok, sv := Region(Some(e.block), join);
      if !ok {
        return [], false, sv;
      }
      ArmOn(p, e, join, sv, old(emitCount), old(emitted));
      ArmDone(b, e, st, rest, join, c0, c1, l0, l1);
      out := st + rest;
    }

    lemma ArmDone(b: nat, e: Edge, st: seq<Stmt>, rest: seq<Stmt>, join: Option<nat>,
                  c0: seq<Frame>, c1: seq<Frame>, l0: nat, l1: nat)
      requires Valid() && b < |f.blocks| && e.block < |f.blocks| && Some(e.block) != join
      requires Clean(st, c0, c1, l0, l1)
      requires SimEdge(f, m, st, b, e, Some(e.block), c1, switchDepth)
      requires Emitted(rest, c1, l1) && Sim(f, m, rest, e.block, join, ctx, switchDepth)
      ensures Emitted(st + rest, c0, l0) && SimEdge(f, m, st + rest, b, e, join, ctx, switchDepth)
    {
      OpenClean(st, c0, c1, l0, l1);
      OpenClean(rest, c1, ctx, l1, labelSeq);
      OpenOrder(ctx, switchDepth, labelSeq);
      SimEdgeExtends(f, m, st, b, e, Some(e.block), c1, ctx, switchDepth, l1, labelSeq);
      SimEdgeThen(f, m, st, rest, b, e, e.block, join, ctx, switchDepth);
      LabelledSeq(DeclaredSeq(st), FreeSeq(st), DeclaredSeq(rest), FreeSeq(rest), c0, c1, ctx, l0, l1, labelSeq);
      ConcatLabels(st, rest);
      SealClean(st + rest, c0, ctx, l0, labelSeq);
    }

    /** The transition to `target`: the phi copies, then a jump if the target is a
        header or follow of an enclosing loop.  `next` is where the caller goes on. */
    method GoTo(target: nat, pred: nat, index: nat, stop: Option<nat>)
      returns (st: seq<Stmt>, next: Option<nat>, ok: bool)
      requires Valid() && pred < |f.blocks| && target < |f.blocks|
      modifies this`ctx, this`labelSeq
      ensures ok == rendering.copies(pred, target, index)
      ensures ok ==> Valid()
      ensures ok ==> Emitted(st, old(ctx), old(labelSeq))
      ensures ok ==> next == if Leaves(old(Opened(ctx)), target) || Some(target) == stop then None else Some(target)
      ensures Opened(ctx) == old(Opened(ctx))
      ensures ok ==> SimEdge(f, m, st, pred, Edge(target, index), if next.Some? then next else stop, ctx, switchDepth)
    {
      if !rendering.copies(pred, target, index) {
        return [], None, false;
      }
      var ph := [Copies(pred, target, index)];
      var js, jumps := Jump(target);
      CopiesThen(pred, target, index, js, stop, old(ctx), old(labelSeq));
      if jumps {
        return ph + js, None, true;
      }
      assert ph + js == ph;
      if Some(target) == stop {
        return ph, None, true;
      }
      return ph, Some(target), true;
    }

    /** The `continue` or `break` that takes control to `target`, if `target` is the
        header or follow of an enclosing loop. */
    method Jump(target: nat) returns (js: seq<Stmt>, ok: bool)
      requires Valid()
      modifies this`ctx, this`labelSeq
      ensures Valid()
      ensures ok <==> Leaves(old(Opened(ctx)), target)
      ensures Opened(ctx) == old(Opened(ctx))
      ensures Emitted(js, old(ctx), old(labelSeq))
      ensures ok ==> forall stop :: SimAt(f, m, js, target, stop, ctx, switchDepth)
      ensures !ok ==> js == [] && ctx == old(ctx)
    {
      NothingEmitted();
      LeavesAt(ctx, target);
      if |ctx| == 0 {
        return [], false;
      }
      var inner := |ctx| - 1;
      if target == ctx[inner].header {
        BareJump(Continue(None), target);
        return [Continue(None)], true;
      }
      js, ok := FrameBreak(inner, target, false);
      if ok {
        return;
      }
      var i := inner;
      while i > 0
        invariant 0 <= i <= inner
        invariant Valid() && ctx == old(ctx) && labelSeq == old(labelSeq)
        invariant forall j :: i <= j < |ctx| ==> ctx[j].header != target && ctx[j].follow != Some(target)
      {
        i := i - 1;
        if target == ctx[i].header {
          FrameLabel(i);
          js := [Continue(ctx[i].lbl)];
          NamedJump(js[0], old(ctx), i, old(labelSeq), target);
          return js, true;
        }
        js, ok := FrameBreak(i, target, true);
        if ok {
          return;
        }
      }
      return [], false;
    }

    /** The header or the follow of an open loop. */
    lemma LeavesAt(c: seq<Frame>, target: nat)
      ensures Leaves(Opened(c), target) <==>
                exists i :: 0 <= i < |c| && (c[i].header == target || c[i].follow == Some(target))
    {
      if i :| 0 <= i < |c| && (c[i].header == target || c[i].follow == Some(target)) {
        assert Opened(c)[i] == Open(c[i].header, c[i].follow);
      }
    }

    /** The break out of frame `i`, if `target` is its follow.  It is labelled when
        asked, and when a switch opened inside the loop would catch a bare one. */
    method FrameBreak(i: nat, target: nat, forceLabel: bool) returns (js: seq<Stmt>, ok: bool)
      requires Valid() && i < |ctx| && (!forceLabel ==> i == |ctx| - 1)
      modifies this`ctx, this`labelSeq
      ensures Valid()
      ensures ok <==> old(ctx)[i].follow == Some(target)
      ensures Opened(ctx) == old(Opened(ctx))
      ensures ok ==> |js| == 1 && js[0].Break?
                     && (js[0].lbl.Some? <==> forceLabel || switchDepth > old(ctx)[i].switchDepth)
      ensures Emitted(js, old(ctx), old(labelSeq))
      ensures ok ==> forall stop :: SimAt(f, m, js, target, stop, ctx, switchDepth)
      ensures !ok ==> js == [] && ctx == old(ctx) && labelSeq == old(labelSeq)
    {
      NothingEmitted();
      OpenOrder(ctx, switchDepth, labelSeq);
      if ctx[i].follow.None? || ctx[i].follow != Some(target) {
        return [], false;
      }
      if forceLabel || switchDepth > ctx[i].switchDepth {
        FrameLabel(i);
        js := [Break(ctx[i].lbl)];
        NamedJump(js[0], old(ctx), i, old(labelSeq), target);
        return js, true;
      }
      BareJump(Break(None), target);
      return [Break(None)], true;
    }

    /** Names a loop, once. */
    method FrameLabel(i: nat)
      requires Valid() && i < |ctx|
      modifies this`ctx, this`labelSeq
      ensures Valid() && |ctx| == |old(ctx)| && ctx[i].lbl.Some?
      ensures Extends(old(ctx), ctx, old(labelSeq), labelSeq) && labelSeq >= old(labelSeq)
      ensures forall j :: 0 <= j < |ctx| && j != i ==> ctx[j] == old(ctx)[j]
      ensures Opened(ctx) == old(Opened(ctx))
      ensures old(ctx)[i].lbl.Some? ==> ctx == old(ctx) && labelSeq == old(labelSeq)
    {
      if ctx[i].lbl.None? {
        OpenOrder(ctx, switchDepth, labelSeq);
        labelSeq := labelSeq + 1;
        ctx := ctx[i := ctx[i].(lbl := Some(labelSeq))];
        SealOrder(ctx, switchDepth, labelSeq);
      }
    }

    predicate InsideLoop(h: nat)
      reads this
    {
      exists i :: 0 <= i < |ctx| && ctx[i].header == h
    }

    // ----- proof steps over the emitter's state -----

    lemma OneStmt(st: Stmt)
      ensures DeclaredSeq([st]) == Declared(st) && FreeSeq([st]) == Free(st) && (GoodSeq([st]) <==> Good(st))
    {
      assert [st][1..] == [];
    }

    lemma SimJump(st: Stmt, target: nat)
      requires st.Break? || st.Continue?
      requires Target(if st.Break? then Brk(st.lbl) else Cnt(st.lbl), None, ctx, switchDepth) == Some(target)
      ensures forall stop :: SimAt(f, m, [st], target, stop, ctx, switchDepth)
    {
      forall stop, s, k: nat
        ensures Accounts(f, m, ExecSeq(m, [st], s, k), Run(f, m, target, s, k), stop, ctx, switchDepth)
      {
        ExecOne(m, st, s, k);
      }
    }

    lemma LeafTerminator(b: nat, out: seq<Stmt>, stop: Option<nat>)
      requires b < |f.blocks|
      requires || (f.blocks[b].kind == Ret && out == [Return(b)])
               || (f.blocks[b].kind == Unreachable && out == [TrapCall(b), ForStmt(None, [])])
               || (f.blocks[b].kind == Throw && out == [ThrowStmt(b)])
      ensures Emitted(out, ctx, labelSeq)
      ensures SimTerminator(f, m, out, b, stop, ctx, switchDepth)
    {
      LabelledNothing(ctx, labelSeq);
      OneStmt(out[0]);
      if |out| == 2 {
        OneStmt(out[1]);
        ConcatLabels([out[0]], [out[1]]);
        assert out == [out[0]] + [out[1]];
      } else {
        assert out == [out[0]];
      }
      SealClean(out, ctx, ctx, labelSeq, labelSeq);
    }

    /** The loop's frame, with the label it got, leaves the stack. */
    lemma CloseLoop(body: seq<Stmt>, c0: seq<Frame>, c1: seq<Frame>, fr: Frame, l0: nat)
      requires fr.lbl.None? && fr.switchDepth == switchDepth && c1 != [] && ctx == c1[..|c1| - 1]
      requires Clean(body, c0 + [fr], c1, l0, labelSeq) && InOrder(c1, switchDepth, labelSeq)
      requires Sim(f, m, body, fr.header, None, c1, switchDepth)
      ensures var out := [ForStmt(c1[|c1| - 1].lbl, body)];
              Emitted(out, c0, l0) && Sim(f, m, out, fr.header, fr.follow, ctx, switchDepth)
      ensures InOrder(ctx, switchDepth, labelSeq)
    {
      var lbl := c1[|c1| - 1].lbl;
      OpenClean(body, c0 + [fr], c1, l0, labelSeq);
      OpenOrder(c1, switchDepth, labelSeq);
      LabelledFor(body, c0, c1, fr, l0, labelSeq);
      OneStmt(ForStmt(lbl, body));
      assert (c0 + [fr])[|c0|] == fr;
      assert c1 == ctx + [fr.(lbl := lbl)];
      SimFor(f, m, body, ctx, fr.(lbl := lbl), switchDepth);
      SealClean([ForStmt(lbl, body)], c0, ctx, l0, labelSeq);
      SealOrder(ctx, switchDepth, labelSeq);
    }

    lemma BareJump(st: Stmt, target: nat)
      requires st == Break(None) || st == Continue(None)
      requires Target(if st.Break? then Brk(None) else Cnt(None), None, ctx, switchDepth) == Some(target)
      ensures Emitted([st], ctx, labelSeq)
      ensures forall stop :: SimAt(f, m, [st], target, stop, ctx, switchDepth)
    {
      LabelledNothing(ctx, labelSeq);
      OneStmt(st);
      SealClean([st], ctx, ctx, labelSeq, labelSeq);
      SimJump(st, target);
    }

    lemma NamedJump(st: Stmt, c0: seq<Frame>, i: nat, l0: nat, target: nat)
      requires InOrder(ctx, switchDepth, labelSeq)
      requires i < |ctx| && ctx[i].lbl.Some?
      requires || (st == Break(ctx[i].lbl) && ctx[i].follow == Some(target))
               || (st == Continue(ctx[i].lbl) && ctx[i].header == target)
      requires Extends(c0, ctx, l0, labelSeq) && l0 <= labelSeq
      requires forall j :: 0 <= j < |ctx| && j != i ==> ctx[j] == c0[j]
      ensures Emitted([st], c0, l0)
      ensures forall stop :: SimAt(f, m, [st], target, stop, ctx, switchDepth)
    {
      OpenOrder(ctx, switchDepth, labelSeq);
      OneStmt(st);
      assert Free(st) <= FrameLabels(ctx);
      LookupAt(ctx, i, ctx[i].lbl.value);
      SealClean([st], c0, ctx, l0, labelSeq);
      SimJump(st, target);
    }

    lemma CopiesThen(pred: nat, target: nat, index: nat, js: seq<Stmt>, stop: Option<nat>, c0: seq<Frame>, l0: nat)
      requires Emitted(js, c0, l0)
      ensures Emitted([Copies(pred, target, index)] + js, c0, l0)
      ensures SimEdge(f, m, [Copies(pred, target, index)], pred, Edge(target, index), Some(target), ctx, switchDepth)
      ensures SimAt(f, m, js, target, stop, ctx, switchDepth) ==>
                SimEdge(f, m, [Copies(pred, target, index)] + js, pred, Edge(target, index), stop, ctx, switchDepth)
    {
      var ph := [Copies(pred, target, index)];
      OpenClean(js, c0, ctx, l0, labelSeq);
      OneStmt(ph[0]);
      ConcatLabels(ph, js);
      SealClean(ph + js, c0, ctx, l0, labelSeq);
      forall s, k: nat
        ensures Accounts(f, m, ExecSeq(m, ph, s, k), RunEdge(f, m, pred, Edge(target, index), s, k),
                         Some(target), ctx, switchDepth)
      {
        ExecOne(m, ph[0], s, k);
      }
      if SimAt(f, m, js, target, stop, ctx, switchDepth) {
        SimEdgeThen(f, m, ph, js, pred, Edge(target, index), target, stop, ctx, switchDepth);
      }
    }

    /** The loop of `Region` goes on with `piece`, emitted for block `cur`. */
    lemma Append(b: Option<nat>, cur: nat, stop: Option<nat>, next: Option<nat>, out: seq<Stmt>, piece: seq<Stmt>,
                 c0: seq<Frame>, c1: seq<Frame>, l0: nat, l1: nat)
      requires Valid()
      requires Clean(out, c0, c1, l0, l1) && Emitted(piece, c1, l1)
      requires b.Some? && Some(cur) != stop
      requires (out == [] && Some(cur) == b) || Sim(f, m, out, b.value, Some(cur), c1, switchDepth)
      requires Sim(f, m, piece, cur, if next.Some? then next else stop, ctx, switchDepth)
      ensures Sim(f, m, out + piece, b.value, if next.Some? then next else stop, ctx, switchDepth)
      ensures Emitted(out + piece, c0, l0)
    {
      OpenClean(out, c0, c1, l0, l1);
      OpenClean(piece, c1, ctx, l1, labelSeq);
      LabelledSeq(DeclaredSeq(out), FreeSeq(out), DeclaredSeq(piece), FreeSeq(piece), c0, c1, ctx, l0, l1, labelSeq);
      ConcatLabels(out, piece);
      SealClean(out + piece, c0, ctx, l0, labelSeq);
      if out == [] && Some(cur) == b {
        assert out + piece == piece;
      } else {
        OpenOrder(ctx, switchDepth, labelSeq);
        SimExtends(f, m, out, b.value, Some(cur), c1, ctx, switchDepth, l1, labelSeq);
        SimThen(f, m, out, piece, b.value, cur, if next.Some? then next else stop, ctx, switchDepth);
      }
    }

    lemma SwitchDone(b: nat, clauses: seq<Clause>, join: Option<nat>, c0: seq<Frame>, l0: nat, inner: nat)
      requires f.TablesOk() && b < |f.blocks| && f.blocks[b].kind == BrTable
      requires Collected(b, clauses, |f.blocks[b].succs|, join, inner, c0, ctx, l0, labelSeq)
      requires InOrder(ctx, switchDepth, labelSeq) && switchDepth < inner
      ensures SimTerminator(f, m, [SwitchStmt(b, clauses)], b, join, ctx, switchDepth)
      ensures Emitted([SwitchStmt(b, clauses)], c0, l0)
    {
      OpenOrder(ctx, switchDepth, labelSeq);
      OpenClauses(b, clauses, |f.blocks[b].succs|, join, inner, c0, ctx, l0, labelSeq);
      SimSwitch(f, m, b, clauses, join, ctx, switchDepth, inner);
      OneStmt(SwitchStmt(b, clauses));
      SealClean([SwitchStmt(b, clauses)], c0, ctx, l0, labelSeq);
    }

    ghost predicate ClauseFact(b: nat, clauses: seq<Clause>, n: nat, join: Option<nat>, inner: nat,
                               c0: seq<Frame>, c1: seq<Frame>, l0: nat, l1: nat, fact: Fact)
      requires b < |f.blocks|
    {
      match fact
      case Labels => GoodClauses(clauses) && Labelled(DeclaredClauses(clauses), FreeClauses(clauses), c0, c1, l0, l1)
      case Depths =>
        && inner > 0 && |clauses| == n
        && ClausesOf(f, m, b, clauses, join, c1, inner) && Shallow(c1, inner - 1)
    }

    /** The first `n` clauses, with the labels given out between the stacks `c0` and `c1`. */
    ghost predicate Collected(b: nat, clauses: seq<Clause>, n: nat, join: Option<nat>, inner: nat,
                              c0: seq<Frame>, c1: seq<Frame>, l0: nat, l1: nat)
      requires b < |f.blocks|
    {
      forall fact {:trigger ClauseFact(b, clauses, n, join, inner, c0, c1, l0, l1, fact)} ::
        ClauseFact(b, clauses, n, join, inner, c0, c1, l0, l1, fact)
    }

    ghost predicate Gathered(b: nat, clauses: seq<Clause>, n: nat, join: Option<nat>, inner: nat,
                             c0: seq<Frame>, l0: nat)
      requires b < |f.blocks|
      reads this
    {
      Collected(b, clauses, n, join, inner, c0, ctx, l0, labelSeq)
    }

    lemma OpenClauses(b: nat, clauses: seq<Clause>, n: nat, join: Option<nat>, inner: nat,
                      c0: seq<Frame>, c1: seq<Frame>, l0: nat, l1: nat)
      requires b < |f.blocks| && Collected(b, clauses, n, join, inner, c0, c1, l0, l1)
      ensures GoodClauses(clauses) && Labelled(DeclaredClauses(clauses), FreeClauses(clauses), c0, c1, l0, l1)
      ensures inner > 0 && |clauses| == n && ClausesOf(f, m, b, clauses, join, c1, inner) && Shallow(c1, inner - 1)
    {
      assert ClauseFact(b, clauses, n, join, inner, c0, c1, l0, l1, Labels);
      assert ClauseFact(b, clauses, n, join, inner, c0, c1, l0, l1, Depths);
    }

    lemma NoClauses(b: nat, join: Option<nat>, inner: nat)
      requires b < |f.blocks| && |f.blocks[b].cases| == |f.blocks[b].succs| && inner > 0 && Shallow(ctx, inner - 1)
      ensures Gathered(b, [], 0, join, inner, ctx, labelSeq)
    {
      LabelledNothing(ctx, labelSeq);
      forall fact
        ensures ClauseFact(b, [], 0, join, inner, ctx, ctx, labelSeq, labelSeq, fact)
      {
      }
    }

    /** The loop of `EmitClauses` goes on with one more clause. */
    lemma AddClause(b: nat, clauses: seq<Clause>, clause: Clause, n: nat, join: Option<nat>,
                    c0: seq<Frame>, c1: seq<Frame>, l0: nat, l1: nat)
      requires Valid() && b < |f.blocks| && n < |f.blocks[b].succs|
      requires Collected(b, clauses, n, join, switchDepth, c0, c1, l0, l1) && Emitted(clause.arm, c1, l1)
      requires clause.isDefault == (n == f.blocks[b].dflt)
      requires n < |f.blocks[b].cases| && (!clause.isDefault ==> clause.cases == f.blocks[b].cases[n])
      requires SimEdge(f, m, clause.arm, b, f.blocks[b].succs[n], join, ctx, switchDepth)
      ensures Gathered(b, clauses + [clause], n + 1, join, switchDepth, c0, l0)
    {
      AddLabels(b, clauses, clause, n, join, c0, c1, l0, l1);
      AddArm(b, clauses, clause, n, join, c0, c1, l0, l1);
      var more, n1 := clauses + [clause], n + 1;
      forall fact
        ensures ClauseFact(b, more, n1, join, switchDepth, c0, ctx, l0, labelSeq, fact)
      {
      }
    }

    lemma AddArm(b: nat, clauses: seq<Clause>, clause: Clause, n: nat, join: Option<nat>,
                 c0: seq<Frame>, c1: seq<Frame>, l0: nat, l1: nat)
      requires b < |f.blocks| && n < |f.blocks[b].succs| && InOrder(ctx, switchDepth, labelSeq)
      requires Collected(b, clauses, n, join, switchDepth, c0, c1, l0, l1) && Emitted(clause.arm, c1, l1)
      requires clause.isDefault == (n == f.blocks[b].dflt)
      requires n < |f.blocks[b].cases| && (!clause.isDefault ==> clause.cases == f.blocks[b].cases[n])
      requires SimEdge(f, m, clause.arm, b, f.blocks[b].succs[n], join, ctx, switchDepth)
      ensures ClauseFact(b, clauses + [clause], n + 1, join, switchDepth, c0, ctx, l0, labelSeq, Depths)
    {
      OpenClauses(b, clauses, n, join, switchDepth, c0, c1, l0, l1);
      OpenClean(clause.arm, c1, ctx, l1, labelSeq);
      OpenOrder(ctx, switchDepth, labelSeq);
      ShallowExtends(c1, ctx, switchDepth - 1, l1, labelSeq);
      forall i | 0 <= i < |clauses|
        ensures SimEdge(f, m, clauses[i].arm, b, f.blocks[b].succs[i], join, ctx, switchDepth)
      {
        SimEdgeExtends(f, m, clauses[i].arm, b, f.blocks[b].succs[i], join, c1, ctx, switchDepth, l1, labelSeq);
      }
    }

    lemma AddLabels(b: nat, clauses: seq<Clause>, clause: Clause, n: nat, join: Option<nat>,
                    c0: seq<Frame>, c1: seq<Frame>, l0: nat, l1: nat)
      requires b < |f.blocks| && InOrder(ctx, switchDepth, labelSeq)
      requires Collected(b, clauses, n, join, switchDepth, c0, c1, l0, l1) && Emitted(clause.arm, c1, l1)
      ensures ClauseFact(b, clauses + [clause], n + 1, join, switchDepth, c0, ctx, l0, labelSeq, Labels)
    {
      assert ClauseFact(b, clauses, n, join, switchDepth, c0, c1, l0, l1, Labels);
      OpenClean(clause.arm, c1, ctx, l1, labelSeq);
      OpenOrder(ctx, switchDepth, labelSeq);
      LabelledSeq(DeclaredClauses(clauses), FreeClauses(clauses), DeclaredSeq(clause.arm), FreeSeq(clause.arm),
                  c0, c1, ctx, l0, l1, labelSeq);
      ConcatClauses(clauses, clause);
    }
  }

  // ----- what is known of the loop stack and of emitted statements -----

  ghost predicate Fits(c: seq<Frame>, sd: nat, n: nat, fact: Fact) {
    match fact
    case Labels => StackOk(c, n)
    case Depths => Shallow(c, sd)
  }

  /** The loop stack `c` is in order, at switch depth `sd`, with `n` labels given out. */
  ghost predicate InOrder(c: seq<Frame>, sd: nat, n: nat) {
    forall fact {:trigger Fits(c, sd, n, fact)} :: Fits(c, sd, n, fact)
  }

  lemma OpenOrder(c: seq<Frame>, sd: nat, n: nat)
    requires InOrder(c, sd, n)
    ensures StackOk(c, n) && Shallow(c, sd)
  {
    assert Fits(c, sd, n, Labels) && Fits(c, sd, n, Depths);
  }

  lemma SealOrder(c: seq<Frame>, sd: nat, n: nat)
    requires StackOk(c, n) && Shallow(c, sd)
    ensures InOrder(c, sd, n)
  {
    forall fact
      ensures Fits(c, sd, n, fact)
    {
    }
  }

  ghost predicate CleanFact(out: seq<Stmt>, c0: seq<Frame>, c1: seq<Frame>, l0: nat, l1: nat, fact: Fact) {
    match fact
    case Labels => Labelled(DeclaredSeq(out), FreeSeq(out), c0, c1, l0, l1)
    case Depths => GoodSeq(out)
  }

  /** The labels of `out` were given out between the stacks `c0` and `c1`, and each is used inside its loop. */
  ghost predicate Clean(out: seq<Stmt>, c0: seq<Frame>, c1: seq<Frame>, l0: nat, l1: nat) {
    forall fact {:trigger CleanFact(out, c0, c1, l0, l1, fact)} :: CleanFact(out, c0, c1, l0, l1, fact)
  }

  lemma OpenClean(out: seq<Stmt>, c0: seq<Frame>, c1: seq<Frame>, l0: nat, l1: nat)
    requires Clean(out, c0, c1, l0, l1)
    ensures GoodSeq(out) && Labelled(DeclaredSeq(out), FreeSeq(out), c0, c1, l0, l1)
  {
    assert CleanFact(out, c0, c1, l0, l1, Labels) && CleanFact(out, c0, c1, l0, l1, Depths);
  }

  lemma SealClean(out: seq<Stmt>, c0: seq<Frame>, c1: seq<Frame>, l0: nat, l1: nat)
    requires GoodSeq(out) && Labelled(DeclaredSeq(out), FreeSeq(out), c0, c1, l0, l1)
    ensures Clean(out, c0, c1, l0, l1)
  {
    forall fact
      ensures CleanFact(out, c0, c1, l0, l1, fact)
    {
    }
  }

  /** The open loops, without their labels. */
  ghost function Opened(ctx: seq<Frame>): seq<Open> {
    seq(|ctx|, i requires 0 <= i < |ctx| => Open(ctx[i].header, ctx[i].follow))
  }

  lemma ShallowExtends(c0: seq<Frame>, c1: seq<Frame>, sd: nat, lo: nat, hi: nat)
    requires Extends(c0, c1, lo, hi) && Shallow(c0, sd)
    ensures Shallow(c1, sd)
  {
  }

  /** With no loop open, only a fall-through to a stop block can go on. */
  lemma NoTarget(c: Ctrl, sd: nat)
    ensures Target(c, None, [], sd) == None
  {
  }

  lemma AllEmitted(emitted: set<nat>, n: nat)
    requires emitted <= Upto(n) && |emitted| == n
    ensures emitted == Upto(n)
  {
    assert |Upto(n) - emitted| == 0;
  }
}
