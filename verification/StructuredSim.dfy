/** When a piece of structured Go accounts for a piece of a CFG run. */
module StructuredSim {
  import opened Basics
  import opened Cfg
  import opened GoStmt

  /** An enclosing loop during emission.  `switchDepth` is the number of switches
      open when the loop was opened; `lbl` is assigned the first time a jump has
      to name the loop. */
  datatype Frame = Frame(header: nat, follow: Option<nat>, switchDepth: nat, lbl: Option<nat>)

  /** The innermost frame carrying label `l`. */
  function Lookup(ctx: seq<Frame>, l: nat): (r: Option<Frame>)
    ensures r.Some? ==> r.value in ctx && r.value.lbl == Some(l)
  {
    if ctx == [] then None
    else if ctx[|ctx| - 1].lbl == Some(l) then Some(ctx[|ctx| - 1])
    else Lookup(ctx[..|ctx| - 1], l)
  }

  /** The block where control is after leaving a statement emitted under `ctx` and
      inside `sd` switches; falling through means `stop`. */
  function Target(c: Ctrl, stop: Option<nat>, ctx: seq<Frame>, sd: nat): Option<nat> {
    match c
    case Fall => stop
    case Cnt(None) => if ctx == [] then None else Some(ctx[|ctx| - 1].header)
    case Brk(None) =>
      if ctx != [] && ctx[|ctx| - 1].switchDepth == sd then ctx[|ctx| - 1].follow else None
    case Cnt(Some(l)) =>
      var fr := Lookup(ctx, l);
      if fr.Some? then Some(fr.value.header) else None
    case Brk(Some(l)) =>
      var fr := Lookup(ctx, l);
      if fr.Some? then fr.value.follow else None
  }

  /** Outcome `o` accounts for the CFG run that ends in `e`: either it is that end,
      or the rest of the run starts at the block where `o` leaves control. */
  ghost predicate Accounts<S>(f: Func, m: Machine<S>, o: Outcome<S>, e: End<S>,
                              stop: Option<nat>, ctx: seq<Frame>, sd: nat)
  {
    match o
    case Over(e') => e' == e
    case Done(c, s, k) =>
      var t := Target(c, stop, ctx, sd);
      t.Some? && Run(f, m, t.value, s, k) == e
  }

  /** For every state and fuel, `sts` does what the CFG does from block `b` on, and
      at least one block runs before control leaves `sts`. */
  ghost predicate Sim<S(!new)>(f: Func, m: Machine<S>, sts: seq<Stmt>, b: nat,
                               stop: Option<nat>, ctx: seq<Frame>, sd: nat)
  {
    forall s, k: nat ::
      var o := ExecSeq(m, sts, s, k);
      Accounts(f, m, o, Run(f, m, b, s, k), stop, ctx, sd) && (o.Done? ==> o.k < k)
  }

  /** The same for code that starts at the terminator of `b`. */
  ghost predicate SimTerminator<S(!new)>(f: Func, m: Machine<S>, sts: seq<Stmt>, b: nat,
                                         stop: Option<nat>, ctx: seq<Frame>, sd: nat)
  {
    forall s, k: nat :: Accounts(f, m, ExecSeq(m, sts, s, k), RunTerminator(f, m, b, s, k), stop, ctx, sd)
  }

  /** The same for code that starts on edge `e` out of `b`. */
  ghost predicate SimEdge<S(!new)>(f: Func, m: Machine<S>, sts: seq<Stmt>, b: nat, e: Edge,
                                   stop: Option<nat>, ctx: seq<Frame>, sd: nat)
  {
    forall s, k: nat :: Accounts(f, m, ExecSeq(m, sts, s, k), RunEdge(f, m, b, e, s, k), stop, ctx, sd)
  }

  /** The same for code emitted where control is already at block `t`, which may
      be nothing at all. */
  ghost predicate SimAt<S(!new)>(f: Func, m: Machine<S>, sts: seq<Stmt>, t: nat,
                                 stop: Option<nat>, ctx: seq<Frame>, sd: nat)
  {
    forall s, k: nat :: Accounts(f, m, ExecSeq(m, sts, s, k), Run(f, m, t, s, k), stop, ctx, sd)
  }

  // ----- labels -----

  ghost function FrameLabels(ctx: seq<Frame>): set<nat> {
    set i | 0 <= i < |ctx| && ctx[i].lbl.Some? :: ctx[i].lbl.value
  }

  ghost predicate DistinctFrameLabels(ctx: seq<Frame>) {
    forall i, j :: 0 <= i < j < |ctx| && ctx[i].lbl.Some? ==> ctx[i].lbl != ctx[j].lbl
  }

  /** `c1` is `c0` with some unlabelled frames labelled by numbers in `(lo, hi]`. */
  ghost predicate Extends(c0: seq<Frame>, c1: seq<Frame>, lo: nat, hi: nat) {
    && |c0| == |c1|
    && forall i :: 0 <= i < |c0| ==>
         && c1[i].header == c0[i].header && c1[i].follow == c0[i].follow
         && c1[i].switchDepth == c0[i].switchDepth
         && (c0[i].lbl.Some? ==> c1[i].lbl == c0[i].lbl)
         && (c0[i].lbl.None? && c1[i].lbl.Some? ==> lo < c1[i].lbl.value <= hi)
  }

  lemma {:induction false} LookupAt(ctx: seq<Frame>, i: nat, l: nat)
    requires i < |ctx| && ctx[i].lbl == Some(l) && DistinctFrameLabels(ctx)
    ensures Lookup(ctx, l) == Some(ctx[i])
    decreases |ctx|
  {
    if i < |ctx| - 1 {
      assert ctx[..|ctx| - 1][i] == ctx[i];
      LookupAt(ctx[..|ctx| - 1], i, l);
    }
  }

  /** Labelling more frames leaves resolved jumps where they were. */
  lemma TargetExtends(c: Ctrl, stop: Option<nat>, c0: seq<Frame>, c1: seq<Frame>, sd: nat, lo: nat, hi: nat)
    requires Extends(c0, c1, lo, hi) && DistinctFrameLabels(c1)
    requires Target(c, stop, c0, sd).Some?
    ensures Target(c, stop, c1, sd) == Target(c, stop, c0, sd)
  {
    match c
    case Cnt(Some(l)) =>
      var i :| 0 <= i < |c0| && c0[i] == Lookup(c0, l).value;
      LookupAt(c1, i, l);
    case Brk(Some(l)) =>
      var i :| 0 <= i < |c0| && c0[i] == Lookup(c0, l).value;
      LookupAt(c1, i, l);
    case _ =>
  }

  lemma AccountsExtends<S>(f: Func, m: Machine<S>, o: Outcome<S>, e: End<S>, stop: Option<nat>,
                           c0: seq<Frame>, c1: seq<Frame>, sd: nat, lo: nat, hi: nat)
    requires Extends(c0, c1, lo, hi) && DistinctFrameLabels(c1)
    requires Accounts(f, m, o, e, stop, c0, sd)
    ensures Accounts(f, m, o, e, stop, c1, sd)
  {
    if o.Done? {
      TargetExtends(o.c, stop, c0, c1, sd, lo, hi);
    }
  }

  lemma SimExtends<S(!new)>(f: Func, m: Machine<S>, sts: seq<Stmt>, b: nat, stop: Option<nat>,
                            c0: seq<Frame>, c1: seq<Frame>, sd: nat, lo: nat, hi: nat)
    requires Extends(c0, c1, lo, hi) && DistinctFrameLabels(c1)
    requires Sim(f, m, sts, b, stop, c0, sd)
    ensures Sim(f, m, sts, b, stop, c1, sd)
  {
    forall s, k: nat
      ensures Accounts(f, m, ExecSeq(m, sts, s, k), Run(f, m, b, s, k), stop, c1, sd)
    {
      AccountsExtends(f, m, ExecSeq(m, sts, s, k), Run(f, m, b, s, k), stop, c0, c1, sd, lo, hi);
    }
  }

  lemma SimEdgeExtends<S(!new)>(f: Func, m: Machine<S>, sts: seq<Stmt>, b: nat, e: Edge, stop: Option<nat>,
                                c0: seq<Frame>, c1: seq<Frame>, sd: nat, lo: nat, hi: nat)
    requires Extends(c0, c1, lo, hi) && DistinctFrameLabels(c1)
    requires SimEdge(f, m, sts, b, e, stop, c0, sd)
    ensures SimEdge(f, m, sts, b, e, stop, c1, sd)
  {
    forall s, k: nat
      ensures Accounts(f, m, ExecSeq(m, sts, s, k), RunEdge(f, m, b, e, s, k), stop, c1, sd)
    {
      AccountsExtends(f, m, ExecSeq(m, sts, s, k), RunEdge(f, m, b, e, s, k), stop, c0, c1, sd, lo, hi);
    }
  }

  // ----- putting pieces together -----

  /** If `o` accounts for `e` up to block `mid`, and `sts` goes on from `mid`, then
      `o` followed by `sts` accounts for `e`. */
  lemma AccountsThen<S(!new)>(f: Func, m: Machine<S>, o: Outcome<S>, e: End<S>, mid: nat, sts: seq<Stmt>,
                              stop: Option<nat>, ctx: seq<Frame>, sd: nat)
    requires Accounts(f, m, o, e, Some(mid), ctx, sd)
    requires SimAt(f, m, sts, mid, stop, ctx, sd)
    ensures Accounts(f, m, Then(m, o, sts), e, stop, ctx, sd)
  {
  }

  lemma SimThen<S(!new)>(f: Func, m: Machine<S>, a: seq<Stmt>, c: seq<Stmt>, b: nat, mid: nat,
                         stop: Option<nat>, ctx: seq<Frame>, sd: nat)
    requires Sim(f, m, a, b, Some(mid), ctx, sd)
    requires SimAt(f, m, c, mid, stop, ctx, sd)
    ensures Sim(f, m, a + c, b, stop, ctx, sd)
  {
    forall s, k: nat
      ensures var o := ExecSeq(m, a + c, s, k);
              Accounts(f, m, o, Run(f, m, b, s, k), stop, ctx, sd) && (o.Done? ==> o.k < k)
    {
      ExecConcat(m, a, c, s, k);
      AccountsThen(f, m, ExecSeq(m, a, s, k), Run(f, m, b, s, k), mid, c, stop, ctx, sd);
    }
  }

  lemma SimEdgeThen<S(!new)>(f: Func, m: Machine<S>, a: seq<Stmt>, c: seq<Stmt>, b: nat, e: Edge, mid: nat,
                             stop: Option<nat>, ctx: seq<Frame>, sd: nat)
    requires SimEdge(f, m, a, b, e, Some(mid), ctx, sd)
    requires SimAt(f, m, c, mid, stop, ctx, sd)
    ensures SimEdge(f, m, a + c, b, e, stop, ctx, sd)
  {
    forall s, k: nat
      ensures Accounts(f, m, ExecSeq(m, a + c, s, k), RunEdge(f, m, b, e, s, k), stop, ctx, sd)
    {
      ExecConcat(m, a, c, s, k);
      AccountsThen(f, m, ExecSeq(m, a, s, k), RunEdge(f, m, b, e, s, k), mid, c, stop, ctx, sd);
    }
  }

  lemma SimTerminatorThen<S(!new)>(f: Func, m: Machine<S>, a: seq<Stmt>, c: seq<Stmt>, b: nat, mid: nat,
                                   stop: Option<nat>, ctx: seq<Frame>, sd: nat)
    requires SimTerminator(f, m, a, b, Some(mid), ctx, sd)
    requires SimAt(f, m, c, mid, stop, ctx, sd)
    ensures SimTerminator(f, m, a + c, b, stop, ctx, sd)
  {
    forall s, k: nat
      ensures Accounts(f, m, ExecSeq(m, a + c, s, k), RunTerminator(f, m, b, s, k), stop, ctx, sd)
    {
      ExecConcat(m, a, c, s, k);
      AccountsThen(f, m, ExecSeq(m, a, s, k), RunTerminator(f, m, b, s, k), mid, c, stop, ctx, sd);
    }
  }

  /** The values of a block followed by code for its terminator. */
  lemma SimBlock<S(!new)>(f: Func, m: Machine<S>, c: seq<Stmt>, b: nat, stop: Option<nat>, ctx: seq<Frame>, sd: nat)
    requires SimTerminator(f, m, c, b, stop, ctx, sd)
    ensures Sim(f, m, [Values(b)] + c, b, stop, ctx, sd)
  {
    forall s, k: nat
      ensures var o := ExecSeq(m, [Values(b)] + c, s, k);
              Accounts(f, m, o, Run(f, m, b, s, k), stop, ctx, sd) && (o.Done? ==> o.k < k)
    {
      ExecConcat(m, [Values(b)], c, s, k);
      ExecOne(m, Values(b), s, k);
    }
  }

  /** Code that never falls through may stop anywhere. */
  lemma AccountsAnyStop<S>(f: Func, m: Machine<S>, o: Outcome<S>, e: End<S>, stop: Option<nat>, ctx: seq<Frame>,
                           sd: nat)
    requires Accounts(f, m, o, e, None, ctx, sd)
    ensures Accounts(f, m, o, e, stop, ctx, sd)
  {
  }

  // ----- loops -----

  /** Leaving the body of a loop by a jump that is not the loop's own. */
  lemma TargetOuter(c: Ctrl, ctx: seq<Frame>, fr: Frame, sd: nat)
    requires fr.switchDepth == sd
    requires Target(c, None, ctx + [fr], sd).Some?
    ensures c == Brk(None) || (fr.lbl.Some? && c == Brk(fr.lbl)) ==>
              Target(c, None, ctx + [fr], sd) == fr.follow
    ensures c == Cnt(None) || (fr.lbl.Some? && c == Cnt(fr.lbl)) ==>
              Target(c, None, ctx + [fr], sd) == Some(fr.header)
    ensures c != Fall
    ensures !(c == Brk(None) || c == Cnt(None) || (fr.lbl.Some? && (c == Brk(fr.lbl) || c == Cnt(fr.lbl)))) ==>
              forall stop :: Target(c, stop, ctx, sd) == Target(c, None, ctx + [fr], sd)
  {
    assert (ctx + [fr])[..|ctx + [fr]| - 1] == ctx;
  }

  /** A body that simulates the CFG from the loop header, under the loop's own
      frame, makes a `for` that simulates it up to the loop's follow block. */
  lemma {:induction false} ForAccounts<S(!new)>(f: Func, m: Machine<S>, body: seq<Stmt>, ctx: seq<Frame>,
                                                fr: Frame, sd: nat, s: S, k: nat)
    requires fr.switchDepth == sd
    requires Sim(f, m, body, fr.header, None, ctx + [fr], sd)
    ensures var o := Exec(m, ForStmt(fr.lbl, body), s, k);
            Accounts(f, m, o, Run(f, m, fr.header, s, k), fr.follow, ctx, sd) && (o.Done? ==> o.k < k)
    decreases k
  {
    var o := ExecSeq(m, body, s, k);
    assert Accounts(f, m, o, Run(f, m, fr.header, s, k), None, ctx + [fr], sd) && (o.Done? ==> o.k < k);
    if o.Done? {
      TargetOuter(o.c, ctx, fr, sd);
      if o.c == Cnt(None) || (fr.lbl.Some? && o.c == Cnt(fr.lbl)) {
        ForAccounts(f, m, body, ctx, fr, sd, o.s, o.k);
      }
    }
  }

  lemma SimFor<S(!new)>(f: Func, m: Machine<S>, body: seq<Stmt>, ctx: seq<Frame>, fr: Frame, sd: nat)
    requires fr.switchDepth == sd
    requires Sim(f, m, body, fr.header, None, ctx + [fr], sd)
    ensures Sim(f, m, [ForStmt(fr.lbl, body)], fr.header, fr.follow, ctx, sd)
  {
    forall s, k: nat
      ensures var o := ExecSeq(m, [ForStmt(fr.lbl, body)], s, k);
              Accounts(f, m, o, Run(f, m, fr.header, s, k), fr.follow, ctx, sd) && (o.Done? ==> o.k < k)
    {
      ExecOne(m, ForStmt(fr.lbl, body), s, k);
      ForAccounts(f, m, body, ctx, fr, sd, s, k);
    }
  }

  // ----- branches -----

  lemma SimIf<S(!new)>(f: Func, m: Machine<S>, b: nat, thn: seq<Stmt>, els: seq<Stmt>,
                       stop: Option<nat>, ctx: seq<Frame>, sd: nat)
    requires b < |f.blocks| && f.blocks[b].kind == If && |f.blocks[b].succs| == 2
    requires SimEdge(f, m, thn, b, f.blocks[b].succs[0], stop, ctx, sd)
    requires SimEdge(f, m, els, b, f.blocks[b].succs[1], stop, ctx, sd)
    ensures SimTerminator(f, m, [IfStmt(b, thn, els)], b, stop, ctx, sd)
  {
    forall s, k: nat
      ensures Accounts(f, m, ExecSeq(m, [IfStmt(b, thn, els)], s, k), RunTerminator(f, m, b, s, k), stop, ctx, sd)
    {
      ExecOne(m, IfStmt(b, thn, els), s, k);
    }
  }

  /** No frame was opened inside more than `sd` switches. */
  ghost predicate Shallow(ctx: seq<Frame>, sd: nat) {
    forall i :: 0 <= i < |ctx| ==> ctx[i].switchDepth <= sd
  }

  /** The clauses of a switch emitted for block `blk`, arm `i` being the code of edge `i`. */
  ghost predicate ClausesOf<S(!new)>(f: Func, m: Machine<S>, b: nat, clauses: seq<Clause>,
                                     stop: Option<nat>, ctx: seq<Frame>, sd: nat)
    requires b < |f.blocks|
  {
    var blk := f.blocks[b];
    && |clauses| <= |blk.succs| == |blk.cases|
    && forall i :: 0 <= i < |clauses| ==>
         && clauses[i].isDefault == (i == blk.dflt)
         && (!clauses[i].isDefault ==> clauses[i].cases == blk.cases[i])
         && SimEdge(f, m, clauses[i].arm, b, blk.succs[i], stop, ctx, sd)
  }

  /** A switch with one clause per successor enters the clause of the successor the
      table routes to. */
  lemma ChooseIsTableIndex(clauses: seq<Clause>, cases: seq<seq<int>>, dflt: int, v: int)
    requires |clauses| == |cases| && 0 <= dflt < |cases| && Disjoint(cases)
    requires forall i :: 0 <= i < |clauses| ==>
               clauses[i].isDefault == (i == dflt) && (i != dflt ==> clauses[i].cases == cases[i])
    ensures Choose(clauses, v) == TableIndex(cases, dflt, v)
  {
    var i := FirstListed(clauses, v);
    if i < |clauses| {
      TableIndexUnique(cases, dflt, v, i);
    } else {
      assert clauses[dflt].isDefault;
    }
  }

  /** A bare break cannot escape a switch arm: no enclosing loop is open at the
      arm's switch depth. */
  lemma SimSwitch<S(!new)>(f: Func, m: Machine<S>, b: nat, clauses: seq<Clause>,
                           stop: Option<nat>, ctx: seq<Frame>, sd: nat, inner: nat)
    requires f.TablesOk() && b < |f.blocks| && f.blocks[b].kind == BrTable
    requires ClausesOf(f, m, b, clauses, stop, ctx, inner) && |clauses| == |f.blocks[b].succs|
    requires Shallow(ctx, sd) && sd < inner
    ensures SimTerminator(f, m, [SwitchStmt(b, clauses)], b, stop, ctx, sd)
  {
    var blk := f.blocks[b];
    forall s, k: nat
      ensures Accounts(f, m, ExecSeq(m, [SwitchStmt(b, clauses)], s, k), RunTerminator(f, m, b, s, k), stop, ctx, sd)
    {
      ExecOne(m, SwitchStmt(b, clauses), s, k);
      ChooseIsTableIndex(clauses, blk.cases, blk.dflt, m.sel(b, s));
      var i := Choose(clauses, m.sel(b, s));
      assert SimEdge(f, m, clauses[i].arm, b, blk.succs[i], stop, ctx, inner);
      var o := ExecSeq(m, clauses[i].arm, s, k);
      assert Accounts(f, m, o, RunEdge(f, m, b, blk.succs[i], s, k), stop, ctx, inner);
    }
  }
}
