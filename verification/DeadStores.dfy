/** Removal of stores that are overwritten before they are read. */
module DeadStores {
  import opened Basics
  import opened AsmCode

  // ----- what makes a store dead -----

  predicate IsStore(i: Instr) {
    i.Store? || i.StoreImm? || i.StoreOther?
  }

  predicate Flushes(i: Instr) {
    i.Jump? || i.Branch? || i.Call? || i.Ret? || (i.Define? && i.l.BlockLabel?)
  }

  predicate Reads(i: Instr, s: nat) {
    match i
    case Load(_, slot, _) => slot == s
    case LoadOther(_, _, _, uses) => s in uses
    case Effect(_, _, uses) => s in uses
    case _ => false
  }

  /** From `here` on, slot `s` is stored to with width `w` before anything reads it or stores to
      it otherwise, and before control can go elsewhere. */
  predicate Overwritten(here: seq<Instr>, s: nat, w: Width) {
    if here == [] || Flushes(here[0]) || Reads(here[0], s) then false
    else if IsStore(here[0]) && here[0].slot == s then here[0].w == w
    else Overwritten(here[1..], s, w)
  }

  /** The stores the pass removes. */
  predicate Dead(code: seq<Instr>, i: nat)
    requires i < |code|
  {
    IsStore(code[i]) && Overwritten(code[i + 1..], code[i].slot, code[i].w)
  }

  // ----- the pass -----

  /** The stores seen, by slot, that nothing has read, and their widths. */
  ghost predicate PendingIs(code: seq<Instr>, i: nat, pending: map<nat, nat>, pendingInstr: map<nat, Width>)
    requires i <= |code|
  {
    && pending.Keys == pendingInstr.Keys
    && (forall s :: s in pending ==> PendingAt(code, i, s, pending[s], pendingInstr[s]))
    && (forall j, s ::
          0 <= j < i && IsStore(code[j]) && code[j].slot == s && Untouched(code, j + 1, i, s) ==>
            s in pending && pending[s] == j)
  }

  ghost predicate PendingAt(code: seq<Instr>, i: nat, s: nat, j: nat, w: Width)
    requires i <= |code|
  {
    j < i && IsStore(code[j]) && code[j].slot == s && code[j].w == w && Untouched(code, j + 1, i, s)
  }

  /** Nothing in `code[lo..hi]` reads slot `s`, stores to it, or flushes. */
  ghost predicate Untouched(code: seq<Instr>, lo: nat, hi: nat, s: nat)
    requires lo <= hi <= |code|
  {
    forall m :: lo <= m < hi ==> Leaves(code[m], s)
  }

  predicate Leaves(i: Instr, s: nat) {
    !Flushes(i) && !Reads(i, s) && !(IsStore(i) && i.slot == s)
  }

  /** A store is overwritten iff the next instruction that touches its slot is a store of its width. */
  lemma {:induction false} OverwrittenAt(code: seq<Instr>, lo: nat, s: nat, w: Width, hi: nat)
    requires lo <= hi < |code| && Untouched(code, lo, hi, s) && !Leaves(code[hi], s)
    ensures Overwritten(code[lo..], s, w) <==> !Flushes(code[hi]) && !Reads(code[hi], s) && code[hi].w == w
    decreases hi - lo
  {
    assert code[lo..][1..] == code[lo + 1..];
    if lo < hi {
      assert Leaves(code[lo], s);
      OverwrittenAt(code, lo + 1, s, w, hi);
    }
  }

  lemma {:induction false} NeverOverwritten(code: seq<Instr>, lo: nat, s: nat, w: Width)
    requires lo <= |code| && Untouched(code, lo, |code|, s)
    ensures !Overwritten(code[lo..], s, w)
    decreases |code| - lo
  {
    if lo < |code| {
      assert code[lo..][1..] == code[lo + 1..];
      assert Leaves(code[lo], s);
      NeverOverwritten(code, lo + 1, s, w);
    }
  }

  // ----- the sweep -----

  /** Every store whose fate is settled before `i` is marked iff it is dead; the others are not marked. */
  ghost predicate Settled(code: seq<Instr>, i: nat, dead: set<nat>)
    requires i <= |code|
  {
    && (forall j :: j in dead ==> j < i && IsStore(code[j]))
    && (forall j :: 0 <= j < i && IsStore(code[j]) ==> SettledAt(code, i, dead, j))
  }

  ghost predicate SettledAt(code: seq<Instr>, i: nat, dead: set<nat>, j: nat)
    requires j < i <= |code| && IsStore(code[j])
  {
    if Untouched(code, j + 1, i, code[j].slot) then j !in dead else j in dead <==> Dead(code, j)
  }

  lemma UntouchedStep(code: seq<Instr>, lo: nat, i: nat, s: nat)
    requires lo <= i < |code|
    ensures Untouched(code, lo, i + 1, s) <==> Untouched(code, lo, i, s) && Leaves(code[i], s)
  {
  }

  /** One instruction that leaves `marked` exactly the stores it kills. */
  lemma SettleStep(code: seq<Instr>, i: nat, dead: set<nat>, marked: set<nat>)
    requires i < |code| && Settled(code, i, dead)
    requires forall j :: j in marked <==>
               0 <= j < i && IsStore(code[j]) && Untouched(code, j + 1, i, code[j].slot) && IsStore(code[i])
               && code[i].slot == code[j].slot && code[i].w == code[j].w
    ensures Settled(code, i + 1, dead + marked)
  {
    forall j | 0 <= j < i + 1 && IsStore(code[j])
      ensures SettledAt(code, i + 1, dead + marked, j)
    {
      if j < i {
        assert SettledAt(code, i, dead, j);
        UntouchedStep(code, j + 1, i, code[j].slot);
        if Untouched(code, j + 1, i, code[j].slot) && !Leaves(code[i], code[j].slot) {
          OverwrittenAt(code, j + 1, code[j].slot, code[j].w, i);
        }
      }
    }
  }

  lemma SettledIsDead(code: seq<Instr>, dead: set<nat>)
    requires Settled(code, |code|, dead)
    ensures forall j :: 0 <= j < |code| ==> (j in dead <==> Dead(code, j))
  {
    forall j | 0 <= j < |code|
      ensures j in dead <==> Dead(code, j)
    {
      if IsStore(code[j]) {
        assert SettledAt(code, |code|, dead, j);
        if Untouched(code, j + 1, |code|, code[j].slot) {
          NeverOverwritten(code, j + 1, code[j].slot, code[j].w);
        }
      }
    }
  }

  /** `code` from position `i` on, without the dead stores. */
  ghost function Kept(code: seq<Instr>, i: nat): seq<Instr>
    requires i <= |code|
    decreases |code| - i
  {
    if i == |code| then [] else (if Dead(code, i) then [] else [code[i]]) + Kept(code, i + 1)
  }

  /** What instruction `ins` at position `i` makes of the pending stores, with entry `e`. */
  ghost function Next<T>(m: map<nat, T>, ins: Instr, e: T): map<nat, T> {
    if Flushes(ins) then map[]
    else if IsStore(ins) then m[ins.slot := e]
    else if ins.Load? then m - (set s <- [ins.slot])
    else if ins.LoadOther? || ins.Effect? then m - (set s <- ins.uses)
    else m
  }

  /** The pending store that instruction `ins` kills. */
  ghost function Kills(pending: map<nat, nat>, pendingInstr: map<nat, Width>, ins: Instr): set<nat>
    requires pending.Keys == pendingInstr.Keys
  {
    if !Flushes(ins) && IsStore(ins) && ins.slot in pending && pendingInstr[ins.slot] == ins.w then {pending[ins.slot]}
    else {}
  }

  function WidthOf(ins: Instr): Width {
    if IsStore(ins) then ins.w else MovL
  }

  lemma LookKeeps(code: seq<Instr>, i: nat, pending: map<nat, nat>, pendingInstr: map<nat, Width>, dead: set<nat>)
    requires i < |code| && PendingIs(code, i, pending, pendingInstr) && Settled(code, i, dead)
    ensures PendingIs(code, i + 1, Next(pending, code[i], i), Next(pendingInstr, code[i], WidthOf(code[i])))
    ensures Settled(code, i + 1, dead + Kills(pending, pendingInstr, code[i]))
  {
    KillsRight(code, i, pending, pendingInstr);
    SettleStep(code, i, dead, Kills(pending, pendingInstr, code[i]));
    NextRight(code[i], i, pending, pendingInstr);
    PendingStep(code, i, pending, pendingInstr, Next(pending, code[i], i),
                Next(pendingInstr, code[i], WidthOf(code[i])));
  }

  lemma NextRight(ins: Instr, i: nat, pending: map<nat, nat>, pendingInstr: map<nat, Width>)
    requires pending.Keys == pendingInstr.Keys
    ensures var p, w := Next(pending, ins, i), Next(pendingInstr, ins, WidthOf(ins));
            && p.Keys == w.Keys
            && (forall s :: s in p <==> (IsStore(ins) && ins.slot == s) || (s in pending && Leaves(ins, s)))
            && (forall s :: s in p ==>
                  if IsStore(ins) && ins.slot == s then p[s] == i && w[s] == ins.w
                  else p[s] == pending[s] && w[s] == pendingInstr[s])
  {
    var p, w := Next(pending, ins, i), Next(pendingInstr, ins, WidthOf(ins));
    assert forall s :: s in p <==> s in w;
  }

  lemma KillsRight(code: seq<Instr>, i: nat, pending: map<nat, nat>, pendingInstr: map<nat, Width>)
    requires i < |code| && PendingIs(code, i, pending, pendingInstr)
    ensures forall j :: j in Kills(pending, pendingInstr, code[i]) <==>
              0 <= j < i && IsStore(code[j]) && Untouched(code, j + 1, i, code[j].slot) && IsStore(code[i])
              && code[i].slot == code[j].slot && code[i].w == code[j].w
  {
    var ins := code[i];
    if IsStore(ins) && ins.slot in pending {
      assert PendingAt(code, i, ins.slot, pending[ins.slot], pendingInstr[ins.slot]);
    }
  }

  class DeadStoreSweep {
    var pending: map<nat, nat>
    var pendingInstr: map<nat, Width>
    var dead: set<nat>

    constructor ()
      ensures pending == map[] && pendingInstr == map[] && dead == {}
    {
      pending, pendingInstr, dead := map[], map[], {};
    }

    method Flush()
      modifies this`pending, this`pendingInstr
      ensures pending == map[] && pendingInstr == map[]
    {
      pending, pendingInstr := map[], map[];
    }

    method Forget(slots: seq<nat>)
      modifies this`pending, this`pendingInstr
      ensures pending == old(pending) - (set s <- slots) && pendingInstr == old(pendingInstr) - (set s <- slots)
    {
      pending, pendingInstr := pending - (set s <- slots), pendingInstr - (set s <- slots);
    }

    /** Takes in one instruction. */
    method Look(code: seq<Instr>, i: nat)
      requires i < |code| && PendingIs(code, i, pending, pendingInstr) && Settled(code, i, dead)
      modifies this
      ensures PendingIs(code, i + 1, pending, pendingInstr) && Settled(code, i + 1, dead)
    {
      var ins := code[i];
      LookKeeps(code, i, pending, pendingInstr, dead);
      if Flushes(ins) {
        Flush();
      } else if IsStore(ins) {
        if ins.slot in pending && pendingInstr[ins.slot] == ins.w {
          dead := dead + {pending[ins.slot]};
        }
        pending, pendingInstr := pending[ins.slot := i], pendingInstr[ins.slot := ins.w];
      } else if ins.Load? {
        Forget([ins.slot]);
      } else if ins.LoadOther? || ins.Effect? {
        Forget(ins.uses);
      }
    }

    /** Marks the dead stores. */
    method Mark(code: seq<Instr>)
      requires pending == map[] && pendingInstr == map[] && dead == {}
      modifies this
      ensures forall j :: 0 <= j < |code| ==> (j in dead <==> Dead(code, j))
    {
      for i := 0 to |code|
        invariant PendingIs(code, i, pending, pendingInstr) && Settled(code, i, dead)
      {
        Look(code, i);
      }
      SettledIsDead(code, dead);
    }

    /** The code without its dead stores. */
    method Eliminate(code: seq<Instr>) returns (out: seq<Instr>)
      requires pending == map[] && pendingInstr == map[] && dead == {}
      modifies this
      ensures out == Kept(code, 0)
    {
      Mark(code);
      out := [];
      for i := 0 to |code|
        invariant out + Kept(code, i) == Kept(code, 0)
      {
        if i !in dead {
          out := out + [code[i]];
        }
      }
    }
  }

  /** What is pending after one more instruction. */
  lemma PendingStep(code: seq<Instr>, i: nat, pending: map<nat, nat>, pendingInstr: map<nat, Width>,
                    pending': map<nat, nat>, pendingInstr': map<nat, Width>)
    requires i < |code| && PendingIs(code, i, pending, pendingInstr) && pending'.Keys == pendingInstr'.Keys
    requires forall s :: s in pending' <==>
               (IsStore(code[i]) && code[i].slot == s) || (s in pending && Leaves(code[i], s))
    requires forall s :: s in pending' ==>
               if IsStore(code[i]) && code[i].slot == s then pending'[s] == i && pendingInstr'[s] == code[i].w
               else pending'[s] == pending[s] && pendingInstr'[s] == pendingInstr[s]
    ensures PendingIs(code, i + 1, pending', pendingInstr')
  {
    forall s | s in pending'
      ensures PendingAt(code, i + 1, s, pending'[s], pendingInstr'[s])
    {
      if !(IsStore(code[i]) && code[i].slot == s) {
        assert PendingAt(code, i, s, pending[s], pendingInstr[s]);
      }
    }
    forall j, s | 0 <= j < i + 1 && IsStore(code[j]) && code[j].slot == s && Untouched(code, j + 1, i + 1, s)
      ensures s in pending' && pending'[s] == j
    {
      if j < i {
        UntouchedStep(code, j + 1, i, s);
      }
    }
  }

  // ----- the program means the same -----

  /** From `here` on, slot `s` is stored to before anything reads it and before control can leave;
      labels in between do not matter. */
  predicate Doomed(here: seq<Instr>, s: nat) {
    if here == [] || here[0].Jump? || here[0].Branch? || here[0].Call? || here[0].Ret? || Reads(here[0], s) then false
    else (IsStore(here[0]) && here[0].slot == s) || Doomed(here[1..], s)
  }

  lemma {:induction false} OverwrittenIsDoomed(here: seq<Instr>, s: nat, w: Width)
    requires Overwritten(here, s, w)
    ensures Doomed(here, s)
  {
    if !(IsStore(here[0]) && here[0].slot == s) {
      OverwrittenIsDoomed(here[1..], s, w);
    }
  }

  /** The two runs differ at most in slots that are overwritten before they are read. */
  ghost predicate Agree<M>(here: seq<Instr>, a: State<M>, b: State<M>) {
    && Total(a) && Total(b) && a.regs == b.regs && a.rest == b.rest
    && forall s: nat :: !Doomed(here, s) ==> a.slots[s] == b.slots[s]
  }

  lemma AgreeIsEqual<M>(here: seq<Instr>, a: State<M>, b: State<M>)
    requires Agree(here, a, b) && forall s: nat :: !Doomed(here, s)
    ensures a == b
  {
  }

  /** Executing a kept instruction on both sides. */
  lemma AgreeStep<M>(ops: Ops<M>, here: seq<Instr>, a: State<M>, b: State<M>)
    requires here != [] && Straight(here[0]) && Agree(here, a, b)
    ensures Agree(here[1..], Exec(ops, here[0], a), Exec(ops, here[0], b))
  {
    var i := here[0];
    if i.LoadOther? || i.Effect? {
      assert Named(a, i.uses) == Named(b, i.uses) by {
        forall x | 0 <= x < |i.uses|
          ensures a.slots[i.uses[x]] == b.slots[i.uses[x]]
        {
          assert Reads(i, i.uses[x]);
        }
      }
    }
    forall s: nat | !Doomed(here[1..], s)
      ensures Exec(ops, i, a).slots[s] == Exec(ops, i, b).slots[s]
    {
    }
  }

  /** Executing a dead store on one side only. */
  lemma AgreeDead<M>(ops: Ops<M>, here: seq<Instr>, w: Width, a: State<M>, b: State<M>)
    requires here != [] && IsStore(here[0]) && Overwritten(here[1..], here[0].slot, w) && Agree(here, a, b)
    ensures Agree(here[1..], Exec(ops, here[0], a), b)
  {
    OverwrittenIsDoomed(here[1..], here[0].slot, w);
  }

  lemma KeptStep(code: seq<Instr>, i: nat)
    requires i < |code|
    ensures code[i..][0] == code[i] && code[i..][1..] == code[i + 1..]
    ensures Dead(code, i) ==> Kept(code, i) == Kept(code, i + 1)
    ensures !Dead(code, i) ==>
              Kept(code, i) != [] && Kept(code, i)[0] == code[i] && Kept(code, i)[1..] == Kept(code, i + 1)
  {
    assert ([code[i]] + Kept(code, i + 1))[1..] == Kept(code, i + 1);
  }

  /** A label is found at matching places; `at` is where in the original. */
  lemma {:induction false} AfterKept(code: seq<Instr>, i: nat, l: Label) returns (at: nat)
    requires i <= |code|
    ensures at <= |code|
    ensures if After(code[i..], l).None? then After(Kept(code, i), l).None?
            else After(code[i..], l) == Some(code[at..]) && After(Kept(code, i), l) == Some(Kept(code, at))
    decreases |code| - i
  {
    at := |code|;
    if i < |code| {
      KeptStep(code, i);
      if code[i] == Define(l) {
        at := i + 1;
      } else {
        at := AfterKept(code, i + 1, l);
      }
    }
  }

  /** Dropping the dead stores changes no run: the states agree at every jump, call, return and
      at the end. */
  lemma {:induction false} SameRun<M(!new)>(ops: Ops<M>, code: seq<Instr>, i: nat, a: State<M>, b: State<M>, k: nat)
    requires Sound(ops) && i <= |code| && Agree(code[i..], a, b)
    ensures Run(ops, Kept(code, 0), Kept(code, i), b, k) == Run(ops, code, code[i..], a, k)
    decreases k, |code| - i, 1
  {
    var here := code[i..];
    if i == |code| {
      AgreeIsEqual(here, a, b);
    } else {
      var ins := code[i];
      KeptStep(code, i);
      if Dead(code, i) {
        AgreeDead(ops, here, ins.w, a, b);
        SameRun(ops, code, i + 1, Exec(ops, ins, a), b, k);
      } else if Straight(ins) {
        AgreeStep(ops, here, a, b);
        SameRun(ops, code, i + 1, Exec(ops, ins, a), Exec(ops, ins, b), k);
      } else if ins.Define? {
        SameRun(ops, code, i + 1, a, b, k);
      } else {
        AgreeIsEqual(here, a, b);
        SameControl(ops, code, i, a, k);
      }
    }
  }

  lemma {:induction false} SameControl<M(!new)>(ops: Ops<M>, code: seq<Instr>, i: nat, a: State<M>, k: nat)
    requires Sound(ops) && i < |code| && Total(a) && !Straight(code[i]) && !code[i].Define?
    ensures Run(ops, Kept(code, 0), Kept(code, i), a, k) == Run(ops, code, code[i..], a, k)
    decreases k, |code| - i, 0
  {
    KeptStep(code, i);
    match code[i]
    case Jump(l) => SameJump(ops, code, l, a, k);
    case Branch(id, l) => SameJump(ops, code, l, a, k); SameRun(ops, code, i + 1, a, a, k);
    case Call(id) => SameRun(ops, code, i + 1, ops.call(id, a), ops.call(id, a), k);
    case Ret =>
  }

  lemma {:induction false} SameJump<M(!new)>(ops: Ops<M>, code: seq<Instr>, l: Label, a: State<M>, k: nat)
    requires Sound(ops) && Total(a)
    ensures RunAt(ops, Kept(code, 0), l, a, k) == RunAt(ops, code, l, a, k)
    decreases k, 0
  {
    assert code[0..] == code;
    var at := AfterKept(code, 0, l);
    if k > 0 && After(code, l).Some? {
      SameRun(ops, code, at, a, a, k - 1);
    }
  }

  /** The whole pass: every run of the shortened program is the run of the original. */
  lemma EliminationKeepsRuns<M(!new)>(ops: Ops<M>, code: seq<Instr>, st: State<M>, k: nat)
    requires Sound(ops) && Total(st)
    ensures Run(ops, Kept(code, 0), Kept(code, 0), st, k) == Run(ops, code, code, st, k)
  {
    assert code[0..] == code;
    SameRun(ops, code, 0, st, st, k);
  }
}
