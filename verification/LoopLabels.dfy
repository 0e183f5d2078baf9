/** The labels of the emitted loops: distinct, bound where used, and used. */
module LoopLabels {
  import opened Basics
  import opened Cfg
  import opened GoStmt
  import opened StructuredSim

  /** Labels declared by the loops of a statement. */
  ghost function Declared(st: Stmt): set<nat>
    decreases st, 0
  {
    match st
    case IfStmt(_, thn, els) => DeclaredSeq(thn) + DeclaredSeq(els)
    case SwitchStmt(_, clauses) => DeclaredClauses(clauses)
    case ForStmt(lbl, body) => DeclaredSeq(body) + (if lbl.Some? then {lbl.value} else {})
    case _ => {}
  }

  ghost function DeclaredSeq(sts: seq<Stmt>): set<nat>
    decreases sts, 0
  {
    if sts == [] then {} else Declared(sts[0]) + DeclaredSeq(sts[1..])
  }

  ghost function DeclaredClauses(cs: seq<Clause>): set<nat>
    decreases cs, 0
  {
    if cs == [] then {} else DeclaredSeq(cs[0].arm) + DeclaredClauses(cs[1..])
  }

  /** Labels a statement jumps to without declaring them itself. */
  ghost function Free(st: Stmt): set<nat>
    decreases st, 0
  {
    match st
    case IfStmt(_, thn, els) => FreeSeq(thn) + FreeSeq(els)
    case SwitchStmt(_, clauses) => FreeClauses(clauses)
    case ForStmt(lbl, body) => FreeSeq(body) - (if lbl.Some? then {lbl.value} else {})
    case Break(lbl) => if lbl.Some? then {lbl.value} else {}
    case Continue(lbl) => if lbl.Some? then {lbl.value} else {}
    case _ => {}
  }

  ghost function FreeSeq(sts: seq<Stmt>): set<nat>
    decreases sts, 0
  {
    if sts == [] then {} else Free(sts[0]) + FreeSeq(sts[1..])
  }

  ghost function FreeClauses(cs: seq<Clause>): set<nat>
    decreases cs, 0
  {
    if cs == [] then {} else FreeSeq(cs[0].arm) + FreeClauses(cs[1..])
  }

  /** No label is declared twice, and the label of every labelled loop is named by
      some break or continue inside that loop. */
  ghost predicate Good(st: Stmt)
    decreases st, 0
  {
    match st
    case IfStmt(_, thn, els) => GoodSeq(thn) && GoodSeq(els) && DeclaredSeq(thn) !! DeclaredSeq(els)
    case SwitchStmt(_, clauses) => GoodClauses(clauses)
    case ForStmt(lbl, body) =>
      && GoodSeq(body)
      && (lbl.Some? ==> lbl.value !in DeclaredSeq(body) && lbl.value in FreeSeq(body))
    case _ => true
  }

  ghost predicate GoodSeq(sts: seq<Stmt>)
    decreases sts, 0
  {
    sts == [] || (Good(sts[0]) && GoodSeq(sts[1..]) && Declared(sts[0]) !! DeclaredSeq(sts[1..]))
  }

  ghost predicate GoodClauses(cs: seq<Clause>)
    decreases cs, 0
  {
    cs == [] || (GoodSeq(cs[0].arm) && GoodClauses(cs[1..]) && DeclaredSeq(cs[0].arm) !! DeclaredClauses(cs[1..]))
  }

  lemma {:induction false} ConcatLabels(a: seq<Stmt>, b: seq<Stmt>)
    ensures DeclaredSeq(a + b) == DeclaredSeq(a) + DeclaredSeq(b)
    ensures FreeSeq(a + b) == FreeSeq(a) + FreeSeq(b)
    ensures GoodSeq(a) && GoodSeq(b) && DeclaredSeq(a) !! DeclaredSeq(b) ==> GoodSeq(a + b)
  {
    if a == [] {
      assert a + b == b;
    } else {
      assert (a + b)[0] == a[0] && (a + b)[1..] == a[1..] + b;
      ConcatLabels(a[1..], b);
    }
  }

  lemma {:induction false} ConcatClauses(a: seq<Clause>, c: Clause)
    ensures DeclaredClauses(a + [c]) == DeclaredClauses(a) + DeclaredSeq(c.arm)
    ensures FreeClauses(a + [c]) == FreeClauses(a) + FreeSeq(c.arm)
    ensures GoodClauses(a) && GoodSeq(c.arm) && DeclaredClauses(a) !! DeclaredSeq(c.arm) ==> GoodClauses(a + [c])
  {
    if a == [] {
      assert a + [c] == [c];
    } else {
      assert (a + [c])[0] == a[0] && (a + [c])[1..] == a[1..] + [c];
      ConcatClauses(a[1..], c);
    }
  }

  /** What emitting code with declared labels `decl` and free labels `free` did to
      the loop stack (`c0` before, `c1` after) and to the label counter (`lo`
      before, `hi` after). */
  ghost predicate Labelled(decl: set<nat>, free: set<nat>, c0: seq<Frame>, c1: seq<Frame>, lo: nat, hi: nat) {
    && lo <= hi
    && Extends(c0, c1, lo, hi)
    && (forall l :: l in decl ==> lo < l <= hi)
    && decl !! FrameLabels(c1)
    && free <= FrameLabels(c1)
    && (forall i :: 0 <= i < |c0| && c0[i].lbl.None? && c1[i].lbl.Some? ==> c1[i].lbl.value in free)
  }

  /** The loop stack carries distinct labels, none beyond the counter. */
  ghost predicate StackOk(ctx: seq<Frame>, seqNo: nat) {
    && DistinctFrameLabels(ctx)
    && forall i :: 0 <= i < |ctx| && ctx[i].lbl.Some? ==> ctx[i].lbl.value <= seqNo
  }

  lemma ExtendsTrans(c0: seq<Frame>, c1: seq<Frame>, c2: seq<Frame>, lo: nat, mid: nat, hi: nat)
    requires Extends(c0, c1, lo, mid) && Extends(c1, c2, mid, hi) && lo <= mid <= hi
    ensures Extends(c0, c2, lo, hi)
  {
  }

  lemma FrameLabelsGrow(c0: seq<Frame>, c1: seq<Frame>, lo: nat, hi: nat)
    requires Extends(c0, c1, lo, hi)
    ensures FrameLabels(c0) <= FrameLabels(c1)
    ensures forall l :: l in FrameLabels(c1) - FrameLabels(c0) ==> lo < l <= hi
  {
    forall l | l in FrameLabels(c0)
      ensures l in FrameLabels(c1)
    {
      var i :| 0 <= i < |c0| && c0[i].lbl.Some? && c0[i].lbl.value == l;
      assert c1[i].lbl == c0[i].lbl;
    }
    forall l | l in FrameLabels(c1) - FrameLabels(c0)
      ensures lo < l <= hi
    {
      var i :| 0 <= i < |c1| && c1[i].lbl.Some? && c1[i].lbl.value == l;
      assert c0[i].lbl.None?;
    }
  }

  /** Emitting one piece after another. */
  lemma LabelledSeq(d0: set<nat>, f0: set<nat>, d1: set<nat>, f1: set<nat>,
                    c0: seq<Frame>, c1: seq<Frame>, c2: seq<Frame>, lo: nat, mid: nat, hi: nat)
    requires Labelled(d0, f0, c0, c1, lo, mid) && Labelled(d1, f1, c1, c2, mid, hi)
    ensures Labelled(d0 + d1, f0 + f1, c0, c2, lo, hi) && d0 !! d1
  {
    ExtendsTrans(c0, c1, c2, lo, mid, hi);
    FrameLabelsGrow(c1, c2, mid, hi);
    forall i | 0 <= i < |c0| && c0[i].lbl.None? && c2[i].lbl.Some?
      ensures c2[i].lbl.value in f0 + f1
    {
      if c1[i].lbl.Some? {
        assert c1[i].lbl.value in f0;
      }
    }
  }

  lemma LabelledNothing(c: seq<Frame>, n: nat)
    ensures Labelled({}, {}, c, c, n, n)
  {
  }

  /** Closing a loop: its frame leaves the stack, its label becomes declared. */
  lemma LabelledFor(body: seq<Stmt>, ctx: seq<Frame>, c1: seq<Frame>, fr: Frame, lo: nat, hi: nat)
    requires fr.lbl.None? && c1 != []
    requires GoodSeq(body) && Labelled(DeclaredSeq(body), FreeSeq(body), ctx + [fr], c1, lo, hi)
    requires StackOk(c1, hi)
    ensures var c := c1[..|c1| - 1];
            var st := ForStmt(c1[|c1| - 1].lbl, body);
            Good(st) && Labelled(Declared(st), Free(st), ctx, c, lo, hi) && StackOk(c, hi)
  {
    var n := |c1| - 1;
    var c := c1[..n];
    assert (ctx + [fr])[n] == fr;
    assert forall i :: 0 <= i < n ==> (ctx + [fr])[i] == ctx[i];
    assert FrameLabels(c1) == FrameLabels(c) + (if c1[n].lbl.Some? then {c1[n].lbl.value} else {}) by {
      forall l | l in FrameLabels(c1)
        ensures l in FrameLabels(c) || c1[n].lbl == Some(l)
      {
        var i :| 0 <= i < |c1| && c1[i].lbl.Some? && c1[i].lbl.value == l;
        if i < n {
          assert c[i].lbl == Some(l);
        }
      }
      forall l | l in FrameLabels(c)
        ensures l in FrameLabels(c1)
      {
        var i :| 0 <= i < |c| && c[i].lbl.Some? && c[i].lbl.value == l;
        assert c1[i].lbl == Some(l);
      }
    }
    if c1[n].lbl.Some? {
      assert c1[n].lbl.value in FreeSeq(body);
    }
  }
}
