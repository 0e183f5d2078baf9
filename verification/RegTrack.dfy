/** Loads replaced by registers or immediates that hold the same value. */
module RegTrack {
  import opened Basics
  import opened AsmCode

  /** What the sweep believes: the slot a register mirrors, the register chosen as the
      source for a slot, and the immediate a slot was last given, with its width. */
  datatype Tracker = Tracker(regSlot: map<Reg, nat>, slotReg: map<nat, Reg>, slotImm: map<nat, int>,
                             slotImmInstr: map<nat, Width>)

  const Nothing := Tracker(map[], map[], map[], map[])

  predicate IsSse(r: Reg) {
    r.X0? || r.X1? || r.X2? || r.X3? || r.X4? || r.X5? || r.X6? || r.X7?
  }

  /** Registers a callee may change: all but the frame and the goroutine pointer. */
  const CallerSaves: seq<Reg> := [
    AX, BX, CX, DX, SI, DI, R8, R9, R10, R11, R12, R13, R15,
    X0, X1, X2, X3, X4, X5, X6, X7
  ]

  /** Can `r` be an operand of a move of this width? */
  predicate FamilyMatches(w: Width, r: Reg) {
    if w.MovL? || w.MovQ? then !IsSse(r) else IsSse(r)
  }

  // ----- the tracker's moves -----

  function ForgetReg(t: Tracker, r: Reg): Tracker {
    if r !in t.regSlot then t
    else
      var s := t.regSlot[r];
      t.(regSlot := t.regSlot - {r},
         slotReg := if s in t.slotReg && t.slotReg[s] == r then t.slotReg - {s} else t.slotReg)
  }

  function ForgetSlot(t: Tracker, s: nat): Tracker {
    var u := if s in t.slotReg then t.(regSlot := t.regSlot - {t.slotReg[s]}, slotReg := t.slotReg - {s}) else t;
    u.(slotImm := u.slotImm - {s}, slotImmInstr := u.slotImmInstr - {s})
  }

  /** Register `r` now mirrors slot `s`. */
  function Mirror(t: Tracker, r: Reg, s: nat): Tracker {
    t.(regSlot := t.regSlot[r := s], slotReg := if s in t.slotReg then t.slotReg else t.slotReg[s := r])
  }

  function ForgetRegs(t: Tracker, rs: seq<Reg>): Tracker {
    if rs == [] then t else ForgetReg(ForgetRegs(t, rs[..|rs| - 1]), rs[|rs| - 1])
  }

  /** After a call: what a callee may change is forgotten. */
  function ForgetCallerSaves(t: Tracker): Tracker {
    ForgetRegs(t, CallerSaves).(slotImm := map[], slotImmInstr := map[])
  }

  /** Does the register that a load would fill already hold the slot? */
  predicate Redundant(t: Tracker, i: Instr) {
    i.Load? && i.dst in t.regSlot && t.regSlot[i.dst] == i.slot
  }

  predicate HasImm(t: Tracker, i: Instr) {
    i.Load? && i.slot in t.slotImm && i.slot in t.slotImmInstr && t.slotImmInstr[i.slot] == i.w
  }

  predicate HasMirror(t: Tracker, i: Instr) {
    i.Load? && i.slot in t.slotReg && t.slotReg[i.slot] != i.dst && FamilyMatches(i.w, t.slotReg[i.slot])
  }

  /** What is emitted for instruction `i`. */
  function Emitted(t: Tracker, i: Instr): seq<Instr> {
    if Redundant(t, i) then []
    else if HasImm(t, i) then [LoadImm(i.w, t.slotImm[i.slot], i.dst)]
    else if HasMirror(t, i) then [Move(i.w, t.slotReg[i.slot], i.dst)]
    else [i]
  }

  /** What the tracker believes after instruction `i`. */
  function Step(t: Tracker, i: Instr): Tracker {
    match i
    case Call(_) => ForgetCallerSaves(t)
    case Store(_, src, slot) =>
      var u := ForgetReg(ForgetSlot(t, slot), src);
      u.(regSlot := u.regSlot[src := slot], slotReg := u.slotReg[slot := src])
    case StoreImm(w, imm, slot) =>
      var u := ForgetSlot(t, slot);
      if w.MovL? || w.MovQ? then u.(slotImm := u.slotImm[slot := imm], slotImmInstr := u.slotImmInstr[slot := w]) else u
    case StoreOther(_, _, slot) => ForgetSlot(t, slot)
    case Load(_, slot, dst) => if Redundant(t, i) then t else Mirror(ForgetReg(t, dst), dst, slot)
    case Move(w, src, dst) =>
      if src in t.regSlot && FamilyMatches(w, dst) then Mirror(ForgetReg(t, dst), dst, t.regSlot[src])
      else ForgetReg(t, dst)
    case LoadImm(_, _, dst) => ForgetReg(t, dst)
    case LoadOther(_, _, dst, _) => ForgetReg(t, dst)
    case Effect(_, writes, _) => if writes.Some? then ForgetReg(t, writes.value) else t
    case _ => Nothing
  }

  function Sweep(t: Tracker, code: seq<Instr>): seq<Instr>
    decreases code
  {
    if code == [] then [] else Emitted(t, code[0]) + Sweep(Step(t, code[0]), code[1..])
  }

  // ----- when the tracker is right -----

  /** The register chosen for a slot mirrors it. */
  ghost predicate Consistent(t: Tracker) {
    forall s :: s in t.slotReg ==> t.slotReg[s] in t.regSlot && t.regSlot[t.slotReg[s]] == s
  }

  /** Every mapped register and immediate equals its slot. */
  ghost predicate Mirrors<M>(t: Tracker, st: State<M>) {
    && Total(st) && Consistent(t)
    && (forall r :: r in t.regSlot ==> st.regs[r] == st.slots[t.regSlot[r]])
    && (forall s :: s in t.slotImm ==> st.slots[s] == t.slotImm[s])
  }

  /** Only `src` and the register chosen for slot `s` are taken to mirror it. */
  predicate Sole(t: Tracker, s: nat, src: Option<Reg>) {
    forall r :: r in t.regSlot && t.regSlot[r] == s && src != Some(r) ==> s in t.slotReg && t.slotReg[s] == r
  }

  /** The register is known to hold what slot `s` holds. */
  predicate KnownEqual(t: Tracker, src: Reg, s: nat) {
    src in t.regSlot
      && (t.regSlot[src] == s
          || (s in t.slotImm && t.regSlot[src] in t.slotImm && t.slotImm[s] == t.slotImm[t.regSlot[src]]))
  }

  /** Instruction `i` leaves no register mapped to a slot it no longer equals. */
  predicate Harmless(t: Tracker, i: Instr) {
    match i
    case Store(_, src, slot) => Sole(t, slot, Some(src)) || KnownEqual(t, src, slot)
    case StoreImm(_, imm, slot) => Sole(t, slot, None) || (slot in t.slotImm && t.slotImm[slot] == imm)
    case StoreOther(_, _, slot) => Sole(t, slot, None)
    case Call(_) => BP !in t.regSlot && R14 !in t.regSlot
    case _ => true
  }

  /** Every instruction is harmless where the sweep meets it. */
  predicate Quiet(t: Tracker, code: seq<Instr>)
    decreases code
  {
    code == [] || (Harmless(t, code[0]) && Quiet(Step(t, code[0]), code[1..]))
  }

  // ----- one instruction -----

  lemma ForgetRegKeeps<M>(t: Tracker, r: Reg, st: State<M>, v: int)
    requires Mirrors(t, st)
    ensures Mirrors(ForgetReg(t, r), st.(regs := st.regs[r := v]))
    ensures r !in ForgetReg(t, r).regSlot
  {
  }

  lemma MirrorKeeps<M>(t: Tracker, r: Reg, s: nat, st: State<M>)
    requires Mirrors(t, st) && r !in t.regSlot && st.regs[r] == st.slots[s]
    ensures Mirrors(Mirror(t, r, s), st)
  {
  }

  lemma {:induction false} ForgetRegsForgets(t: Tracker, rs: seq<Reg>)
    requires Consistent(t)
    ensures Consistent(ForgetRegs(t, rs))
    ensures forall r :: r in ForgetRegs(t, rs).regSlot ==> r in t.regSlot && r !in rs
  {
    if rs != [] {
      ForgetRegsForgets(t, rs[..|rs| - 1]);
    }
  }

  /** After a call that spares no mapped register, nothing is left to be wrong. */
  lemma CallForgets(t: Tracker)
    requires Consistent(t) && BP !in t.regSlot && R14 !in t.regSlot
    ensures ForgetCallerSaves(t).regSlot == map[] && ForgetCallerSaves(t).slotReg == map[]
  {
    ForgetRegsForgets(t, CallerSaves);
    forall r: Reg
      ensures r in CallerSaves || r == BP || r == R14
    {
      assert CallerSaves[0..6] == [AX, BX, CX, DX, SI, DI];
    }
  }

  /** What forgetting a slot leaves. */
  lemma ForgetSlotLeaves(t: Tracker, slot: nat)
    requires Consistent(t)
    ensures Consistent(ForgetSlot(t, slot)) && slot !in ForgetSlot(t, slot).slotReg
            && slot !in ForgetSlot(t, slot).slotImm
    ensures forall r :: r in ForgetSlot(t, slot).regSlot <==>
              r in t.regSlot && !(slot in t.slotReg && t.slotReg[slot] == r)
    ensures forall r :: r in ForgetSlot(t, slot).regSlot ==> ForgetSlot(t, slot).regSlot[r] == t.regSlot[r]
    ensures forall s ::
              s in ForgetSlot(t, slot).slotImm ==> s in t.slotImm && ForgetSlot(t, slot).slotImm[s] == t.slotImm[s]
  {
  }

  /** Forgetting a slot before it changes is enough if nobody else mirrors it, or if it
      does not really change. */
  lemma OthersStay<M>(t: Tracker, slot: nat, src: Option<Reg>, v: int, st: State<M>)
    requires Mirrors(t, st) && (Sole(t, slot, src) || st.slots[slot] == v)
    ensures var u, slots := ForgetSlot(t, slot), st.slots[slot := v];
            && (forall r :: r in u.regSlot && src != Some(r) ==> st.regs[r] == slots[u.regSlot[r]])
            && (forall s :: s in u.slotImm ==> slots[s] == u.slotImm[s])
  {
    ForgetSlotLeaves(t, slot);
  }

  /** Once slot and source are forgotten, the tracker is right about the rest. */
  lemma StoreForgets<M>(t: Tracker, src: Reg, slot: nat, st: State<M>)
    requires Mirrors(t, st) && (Sole(t, slot, Some(src)) || st.slots[slot] == st.regs[src])
    ensures Mirrors(ForgetReg(ForgetSlot(t, slot), src), st.(slots := st.slots[slot := st.regs[src]]))
  {
    OthersStay(t, slot, Some(src), st.regs[src], st);
    ForgetSlotLeaves(t, slot);
  }

  lemma StoreKeeps<M>(ops: Ops<M>, t: Tracker, w: Width, src: Reg, slot: nat, st: State<M>)
    requires Mirrors(t, st) && Harmless(t, Store(w, src, slot))
    ensures Mirrors(Step(t, Store(w, src, slot)), Exec(ops, Store(w, src, slot), st))
  {
    StoreForgets(t, src, slot, st);
    ForgetSlotLeaves(t, slot);
    var u := ForgetReg(ForgetSlot(t, slot), src);
    assert Step(t, Store(w, src, slot)) == Mirror(u, src, slot);
    MirrorKeeps(u, src, slot, Exec(ops, Store(w, src, slot), st));
  }

  lemma SlotWriteKeeps<M>(ops: Ops<M>, t: Tracker, i: Instr, st: State<M>)
    requires (i.StoreImm? || i.StoreOther?) && Mirrors(t, st) && Harmless(t, i)
    ensures Mirrors(Step(t, i), Exec(ops, i, st))
  {
    OthersStay(t, i.slot, None, Exec(ops, i, st).slots[i.slot], st);
    ForgetSlotLeaves(t, i.slot);
  }

  lemma RegWriteKeeps<M>(ops: Ops<M>, t: Tracker, i: Instr, st: State<M>)
    requires (i.LoadImm? || i.LoadOther? || i.Effect?) && Mirrors(t, st)
    ensures Mirrors(Step(t, i), Exec(ops, i, st))
  {
    var st' := Exec(ops, i, st);
    if i.LoadImm? || i.LoadOther? {
      ForgetRegKeeps(t, i.dst, st, st'.regs[i.dst]);
    } else if i.writes.Some? {
      ForgetRegKeeps(t, i.writes.value, st, st'.regs[i.writes.value]);
    }
  }

  lemma StepKeeps<M>(ops: Ops<M>, t: Tracker, i: Instr, st: State<M>)
    requires Straight(i) && Mirrors(t, st) && Harmless(t, i)
    ensures Mirrors(Step(t, i), Exec(ops, i, st))
  {
    match i
    case Store(w, src, slot) => StoreKeeps(ops, t, w, src, slot, st);
    case Load(_, slot, dst) =>
      if !Redundant(t, i) {
        ForgetRegKeeps(t, dst, st, st.slots[slot]);
        MirrorKeeps(ForgetReg(t, dst), dst, slot, Exec(ops, i, st));
      } else {
        assert Exec(ops, i, st) == st by {
          assert st.regs[dst := st.slots[slot]] == st.regs;
        }
      }
    case Move(w, src, dst) =>
      ForgetRegKeeps(t, dst, st, st.regs[src]);
      if src in t.regSlot && FamilyMatches(w, dst) {
        MirrorKeeps(ForgetReg(t, dst), dst, t.regSlot[src], Exec(ops, i, st));
      }
    case StoreImm(_, _, _) => SlotWriteKeeps(ops, t, i, st);
    case StoreOther(_, _, _) => SlotWriteKeeps(ops, t, i, st);
    case _ => RegWriteKeeps(ops, t, i, st);
  }

  /** What is emitted does what the instruction does. */
  lemma EmittedSame<M>(ops: Ops<M>, t: Tracker, i: Instr, st: State<M>)
    requires Straight(i) && Mirrors(t, st)
    ensures Emitted(t, i) == [] ==> Exec(ops, i, st) == st
    ensures Emitted(t, i) != [] ==> Straight(Emitted(t, i)[0]) && Exec(ops, Emitted(t, i)[0], st) == Exec(ops, i, st)
  {
    if Redundant(t, i) {
      assert st.regs[i.dst := st.slots[i.slot]] == st.regs;
    }
  }

  // ----- whole runs -----

  lemma {:induction false} AfterSweep(t: Tracker, code: seq<Instr>, l: Label)
    ensures After(code, l).None? ==> After(Sweep(t, code), l).None?
    ensures After(code, l).Some? ==> After(Sweep(t, code), l) == Some(Sweep(Nothing, After(code, l).value))
    ensures After(code, l).Some? && Quiet(t, code) ==> Quiet(Nothing, After(code, l).value)
    decreases code
  {
    if code != [] {
      var rest := Sweep(Step(t, code[0]), code[1..]);
      AfterSweep(Step(t, code[0]), code[1..], l);
      if Emitted(t, code[0]) == [] {
        assert Sweep(t, code) == rest;
      } else {
        assert Sweep(t, code)[1..] == rest;
      }
    }
  }

  /** The rewritten program runs exactly as the original: registers, slots and memory are
      the same at every jump, call and return. */
  lemma {:induction false} SameRun<M(!new)>(ops: Ops<M>, code: seq<Instr>, t: Tracker, here: seq<Instr>, st: State<M>,
                                            k: nat)
    requires Sound(ops) && Mirrors(t, st) && Quiet(t, here) && Quiet(Nothing, code)
    ensures Run(ops, Sweep(Nothing, code), Sweep(t, here), st, k) == Run(ops, code, here, st, k)
    decreases k, |here|
  {
    if here != [] {
      var i, rest, u := here[0], here[1..], Step(t, here[0]);
      if Straight(i) {
        StepKeeps(ops, t, i, st);
        EmittedSame(ops, t, i, st);
        SameRun(ops, code, u, rest, Exec(ops, i, st), k);
        if Emitted(t, i) == [] {
          assert Sweep(t, here) == Sweep(u, rest);
        } else {
          assert Sweep(t, here)[1..] == Sweep(u, rest);
        }
      } else {
        assert Sweep(t, here)[1..] == Sweep(u, rest);
        match i
        case Define(_) => SameRun(ops, code, Nothing, rest, st, k);
        case Jump(l) => SameJump(ops, code, l, st, k);
        case Branch(_, l) => SameJump(ops, code, l, st, k); SameRun(ops, code, Nothing, rest, st, k);
        case Call(id) => CallForgets(t); SameRun(ops, code, u, rest, ops.call(id, st), k);
        case Ret =>
      }
    }
  }

  lemma {:induction false} SameJump<M(!new)>(ops: Ops<M>, code: seq<Instr>, l: Label, st: State<M>, k: nat)
    requires Sound(ops) && Total(st) && Quiet(Nothing, code)
    ensures RunAt(ops, Sweep(Nothing, code), l, st, k) == RunAt(ops, code, l, st, k)
    decreases k, 0
  {
    AfterSweep(Nothing, code, l);
    if k > 0 && After(code, l).Some? {
      SameRun(ops, code, Nothing, After(code, l).value, st, k - 1);
    }
  }

  lemma SweepKeepsRuns<M(!new)>(ops: Ops<M>, code: seq<Instr>, st: State<M>, k: nat)
    requires Sound(ops) && Total(st) && Quiet(Nothing, code)
    ensures Run(ops, Sweep(Nothing, code), Sweep(Nothing, code), st, k) == Run(ops, code, code, st, k)
  {
    SameRun(ops, code, Nothing, code, st, k);
  }

  // ----- the condition is exact -----

  /** A state in which the tracker is right, with `v` in the registers and slots it leaves free. */
  ghost function Fitting<M>(t: Tracker, slot: nat, atSlot: int, elsewhere: int, free: int, rest: M): State<M> {
    var slots := imap s: nat :: if s in t.slotImm then t.slotImm[s] else if s == slot then atSlot else elsewhere;
    State(imap r: Reg :: if r in t.regSlot then slots[t.regSlot[r]] else free, slots, rest)
  }

  lemma FittingMirrors<M>(t: Tracker, slot: nat, atSlot: int, elsewhere: int, free: int, rest: M)
    requires Consistent(t)
    ensures Mirrors(t, Fitting(t, slot, atSlot, elsewhere, free, rest))
  {
  }

  /** The tracker is right after the instruction whenever it was right before. */
  ghost predicate AlwaysKept<M(!new)>(ops: Ops<M>, t: Tracker, i: Instr)
    requires Straight(i)
  {
    forall st: State<M> :: Mirrors(t, st) ==> Mirrors(Step(t, i), Exec(ops, i, st))
  }

  /** A store is harmless exactly when the tracker stays right after it from every state in
      which it was right. */
  lemma StoreHarmlessIff<M(!new)>(ops: Ops<M>, t: Tracker, w: Width, src: Reg, slot: nat, rest: M)
    requires Consistent(t)
    ensures AlwaysKept(ops, t, Store(w, src, slot)) <==> Harmless(t, Store(w, src, slot))
  {
    var i := Store(w, src, slot);
    if Harmless(t, i) {
      forall st: State<M> | Mirrors(t, st)
        ensures Mirrors(Step(t, i), Exec(ops, i, st))
      {
        StoreKeeps(ops, t, w, src, slot, st);
      }
    } else {
      var r :| r in t.regSlot && t.regSlot[r] == slot && src != r && !(slot in t.slotReg && t.slotReg[slot] == r);
      var here := if slot in t.slotImm then t.slotImm[slot] else 0;
      var there := if src in t.regSlot && t.regSlot[src] in t.slotImm then t.slotImm[t.regSlot[src]] else here + 1;
      var atSlot := if slot in t.slotImm then here else there + 1;
      var st := Fitting(t, slot, atSlot, there, atSlot + 1, rest);
      FittingMirrors(t, slot, atSlot, there, atSlot + 1, rest);
      assert st.regs[src] != st.slots[slot];
      StaleReg(ops, t, i, r, st);
    }
  }

  /** A mapped register that the tracker does not forget is left behind by a store of another value. */
  lemma StaleReg<M>(ops: Ops<M>, t: Tracker, i: Instr, r: Reg, st: State<M>)
    requires (i.Store? || i.StoreImm? || i.StoreOther?) && Mirrors(t, st) && r in t.regSlot && t.regSlot[r] == i.slot
    requires (i.Store? ==> r != i.src) && !(i.slot in t.slotReg && t.slotReg[i.slot] == r)
    requires Exec(ops, i, st).slots[i.slot] != st.slots[i.slot]
    ensures !Mirrors(Step(t, i), Exec(ops, i, st))
  {
    ForgetSlotLeaves(t, i.slot);
    assert r in Step(t, i).regSlot && Step(t, i).regSlot[r] == i.slot;
  }

  /** The same for storing an immediate. */
  lemma StoreImmHarmlessIff<M(!new)>(ops: Ops<M>, t: Tracker, w: Width, imm: int, slot: nat, rest: M)
    requires Consistent(t)
    ensures AlwaysKept(ops, t, StoreImm(w, imm, slot)) <==> Harmless(t, StoreImm(w, imm, slot))
  {
    var i := StoreImm(w, imm, slot);
    if Harmless(t, i) {
      forall st: State<M> | Mirrors(t, st)
        ensures Mirrors(Step(t, i), Exec(ops, i, st))
      {
        SlotWriteKeeps(ops, t, i, st);
      }
    } else {
      var r :| r in t.regSlot && t.regSlot[r] == slot && !(slot in t.slotReg && t.slotReg[slot] == r);
      var st := Fitting(t, slot, imm + 1, imm, imm, rest);
      FittingMirrors(t, slot, imm + 1, imm, imm, rest);
      StaleReg(ops, t, i, r, st);
    }
  }

  /** Operations of which the one that computes a stored value gives `v`, and a call changes every slot. */
  ghost function Giving<M>(v: int): Ops<M> {
    Ops((id, regs, vals, m) => v, (id, regs, vals, m) => m, (id, regs, m) => false,
        (id, st: State<M>) => st.(slots := imap s: nat | s in st.slots :: st.slots[s] + 1))
  }

  /** The same for storing something computed, over all that may be computed. */
  lemma StoreOtherHarmlessIff<M(!new)>(t: Tracker, w: Width, id: nat, slot: nat, rest: M)
    requires Consistent(t)
    ensures (forall ops: Ops<M> :: AlwaysKept(ops, t, StoreOther(w, id, slot))) <==>
              Harmless(t, StoreOther(w, id, slot))
  {
    var i := StoreOther(w, id, slot);
    if Harmless(t, i) {
      forall ops: Ops<M>, st: State<M> | Mirrors(t, st)
        ensures Mirrors(Step(t, i), Exec(ops, i, st))
      {
        SlotWriteKeeps(ops, t, i, st);
      }
    } else {
      var r :| r in t.regSlot && t.regSlot[r] == slot && !(slot in t.slotReg && t.slotReg[slot] == r);
      var st := Fitting(t, slot, 0, 0, 0, rest);
      var ops: Ops<M> := Giving(st.slots[slot] + 1);
      FittingMirrors(t, slot, 0, 0, 0, rest);
      StaleReg(ops, t, i, r, st);
      assert !AlwaysKept(ops, t, i);
    }
  }

  /** A call leaves the tracker right, whatever the callee does. */
  ghost predicate CallKept<M(!new)>(t: Tracker, id: nat) {
    forall ops: Ops<M>, st: State<M> :: Mirrors(t, st) && Total(ops.call(id, st)) ==>
      Mirrors(Step(t, Call(id)), ops.call(id, st))
  }

  lemma {:induction false} ForgetRegsSpares(t: Tracker, rs: seq<Reg>, r: Reg)
    requires r in t.regSlot && r !in rs
    ensures r in ForgetRegs(t, rs).regSlot && ForgetRegs(t, rs).regSlot[r] == t.regSlot[r]
  {
    if rs != [] {
      ForgetRegsSpares(t, rs[..|rs| - 1], r);
    }
  }

  lemma NotCallerSaved(r: Reg)
    requires r == BP || r == R14
    ensures r !in CallerSaves
  {
  }

  /** A call is harmless exactly when the tracker maps no register that it keeps across calls. */
  lemma CallHarmlessIff<M(!new)>(t: Tracker, id: nat, rest: M)
    requires Consistent(t)
    ensures CallKept<M>(t, id) <==> Harmless(t, Call(id))
  {
    if Harmless(t, Call(id)) {
      CallForgets(t);
    } else {
      var r := if BP in t.regSlot then BP else R14;
      var st := Fitting(t, 0, 0, 0, 0, rest);
      var ops: Ops<M> := Giving(0);
      FittingMirrors(t, 0, 0, 0, 0, rest);
      NotCallerSaved(r);
      ForgetRegsSpares(t, CallerSaves, r);
      assert ops.call(id, st).regs[r] != ops.call(id, st).slots[t.regSlot[r]];
      assert !Mirrors(Step(t, Call(id)), ops.call(id, st));
    }
  }

  /** Two registers mirror slot 0 when it is overwritten from a third; only one is forgotten, so
      the second load into the other is dropped although the slot has changed. */
  const StaleProgram: seq<Instr> := [Store(MovQ, AX, 0), Load(MovQ, 0, BX), Store(MovQ, CX, 0), Load(MovQ, 0, BX), Ret]

  lemma SweepCons(t: Tracker, i: Instr, rest: seq<Instr>)
    ensures Sweep(t, [i] + rest) == Emitted(t, i) + Sweep(Step(t, i), rest)
    ensures Quiet(t, [i] + rest) <==> Harmless(t, i) && Quiet(Step(t, i), rest)
  {
    assert ([i] + rest)[1..] == rest;
  }

  /** Three instructions and what follows. */
  lemma SweepThree(t0: Tracker, a: Instr, b: Instr, c: Instr, rest: seq<Instr>)
    ensures var t1 := Step(t0, a);
            var t2 := Step(t1, b);
            && Sweep(t0, [a, b, c] + rest)
               == Emitted(t0, a) + (Emitted(t1, b) + (Emitted(t2, c) + Sweep(Step(t2, c), rest)))
            && (Quiet(t0, [a, b, c] + rest) ==> Harmless(t2, c))
  {
    SweepCons(t0, a, [b, c] + rest);
    SweepCons(Step(t0, a), b, [c] + rest);
    SweepCons(Step(Step(t0, a), b), c, rest);
    assert [a] + ([b, c] + rest) == [a, b, c] + rest && [b] + ([c] + rest) == [b, c] + rest;
  }

  lemma SweepLast(t: Tracker, i: Instr)
    requires Redundant(t, i)
    ensures Sweep(t, [i, Ret]) == [Ret]
  {
    SweepCons(t, i, [Ret]);
    SweepCons(Step(t, i), Ret, []);
    assert [i] + [Ret] == [i, Ret] && [Ret] + [] == [Ret];
  }

  lemma StaleTracker(t0: Tracker, t1: Tracker, t2: Tracker)
    requires t0 == Nothing && t1 == Step(t0, Store(MovQ, AX, 0)) && t2 == Step(t1, Load(MovQ, 0, BX))
    ensures Emitted(t1, Load(MovQ, 0, BX)) == [Move(MovQ, AX, BX)]
    ensures !Harmless(t2, Store(MovQ, CX, 0)) && Redundant(Step(t2, Store(MovQ, CX, 0)), Load(MovQ, 0, BX))
  {
    assert t1.regSlot == map[AX := 0] && t1.slotReg == map[0 := AX] && t1.slotImm == map[];
    assert t2.regSlot == map[AX := 0, BX := 0] && t2.slotReg == map[0 := AX] && t2.slotImm == map[];
  }

  lemma StaleParts(t0: Tracker, a: Instr, b: Instr, c: Instr, p: seq<Instr>)
    requires t0 == Nothing && a == Store(MovQ, AX, 0) && b == Load(MovQ, 0, BX) && c == Store(MovQ, CX, 0)
    requires p == [a, b, c] + [b, Ret]
    ensures !Quiet(t0, p) && Sweep(t0, p) == [a] + ([Move(MovQ, AX, BX)] + ([c] + [Ret]))
  {
    var t1 := Step(t0, a);
    var t2 := Step(t1, b);
    StaleTracker(t0, t1, t2);
    SweepThree(t0, a, b, c, [b, Ret]);
    SweepLast(Step(t2, c), b);
  }

  lemma StaleShape(p: seq<Instr>)
    requires p == StaleProgram
    ensures var a, b, c := Store(MovQ, AX, 0), Load(MovQ, 0, BX), Store(MovQ, CX, 0); p == [a, b, c] + [b, Ret]
  {
  }

  lemma Joined<T>(a: T, b: T, c: T, d: T)
    ensures [a] + ([b] + ([c] + [d])) == [a, b, c, d]
  {
  }

  lemma StaleSweep(t0: Tracker, p: seq<Instr>)
    requires t0 == Nothing && p == StaleProgram
    ensures !Quiet(t0, p)
    ensures Sweep(t0, p) == [Store(MovQ, AX, 0), Move(MovQ, AX, BX), Store(MovQ, CX, 0), Ret]
  {
    StaleShape(p);
    StaleParts(t0, Store(MovQ, AX, 0), Load(MovQ, 0, BX), Store(MovQ, CX, 0), p);
    Joined(Store(MovQ, AX, 0), Move(MovQ, AX, BX), Store(MovQ, CX, 0), Ret);
  }

  lemma StaleMirror<M>(ops: Ops<M>, st: State<M>)
    requires Total(st) && st.regs[AX] != st.regs[CX]
    ensures !Quiet(Nothing, StaleProgram)
    ensures Run(ops, StaleProgram, StaleProgram, st, 0).Done?
    ensures Run(ops, Sweep(Nothing, StaleProgram), Sweep(Nothing, StaleProgram), st, 0)
            != Run(ops, StaleProgram, StaleProgram, st, 0)
  {
    StaleSweep(Nothing, StaleProgram);
    OriginalEnds(ops, st);
    RewrittenEnds(ops, st);
  }

  lemma OriginalEnds<M>(ops: Ops<M>, st: State<M>)
    requires Total(st)
    ensures Run(ops, StaleProgram, StaleProgram, st, 0).Done?
            && Run(ops, StaleProgram, StaleProgram, st, 0).st.regs[BX] == st.regs[CX]
  {
    var p := StaleProgram;
    RunLast(ops, p, st);
    AllCons(ops, p[0], [p[1], p[2], p[3]], st);
    AllThree(ops, p[1], p[2], p[3], Exec(ops, p[0], st));
    assert p[..4] == [p[0]] + [p[1], p[2], p[3]];
    StaleEnds(ops, st);
  }

  lemma RewrittenEnds<M>(ops: Ops<M>, st: State<M>)
    requires Total(st)
    ensures var q := [Store(MovQ, AX, 0), Move(MovQ, AX, BX), Store(MovQ, CX, 0), Ret];
            Run(ops, q, q, st, 0).Done? && Run(ops, q, q, st, 0).st.regs[BX] == st.regs[AX]
  {
    var q := [Store(MovQ, AX, 0), Move(MovQ, AX, BX), Store(MovQ, CX, 0), Ret];
    RunLast(ops, q, st);
    AllThree(ops, q[0], q[1], q[2], st);
    assert q[..3] == [q[0], q[1], q[2]];
    StaleEnds(ops, st);
  }

  /** The register that was not forgotten ends up with the wrong value. */
  lemma StaleEnds<M>(ops: Ops<M>, st: State<M>)
    requires Total(st)
    ensures var p := StaleProgram;
            Exec(ops, p[3], Exec(ops, p[2], Exec(ops, p[1], Exec(ops, p[0], st)))).regs[BX] == st.regs[CX]
    ensures Exec(ops, Store(MovQ, CX, 0), Exec(ops, Move(MovQ, AX, BX), Exec(ops, Store(MovQ, AX, 0), st))).regs[BX]
            == st.regs[AX]
  {
  }

  lemma AllCons<M>(ops: Ops<M>, a: Instr, rest: seq<Instr>, st: State<M>)
    requires Total(st) && Straight(a) && forall i :: 0 <= i < |rest| ==> Straight(rest[i])
    ensures All(ops, [a] + rest, st) == All(ops, rest, Exec(ops, a, st))
  {
    assert ([a] + rest)[1..] == rest;
  }

  lemma AllThree<M>(ops: Ops<M>, a: Instr, b: Instr, c: Instr, st: State<M>)
    requires Total(st) && Straight(a) && Straight(b) && Straight(c)
    ensures All(ops, [a, b, c], st) == Exec(ops, c, Exec(ops, b, Exec(ops, a, st)))
  {
    AllCons(ops, a, [b, c], st);
    AllCons(ops, b, [c], Exec(ops, a, st));
    AllCons(ops, c, [], Exec(ops, b, Exec(ops, a, st)));
    assert [a] + [b, c] == [a, b, c] && [b] + [c] == [b, c] && [c] + [] == [c];
  }

  /** A run of straight-line code and a return. */
  lemma {:induction false} RunLast<M>(ops: Ops<M>, code: seq<Instr>, st: State<M>)
    requires Total(st) && |code| >= 2 && code[|code| - 1] == Ret
             && forall i :: 0 <= i < |code| - 1 ==> Straight(code[i])
    ensures Run(ops, code, code, st, 0) == Done(All(ops, code[..|code| - 1], st))
  {
    RunTail(ops, code, 0, st);
    assert code[0..] == code;
  }

  lemma {:induction false} RunTail<M>(ops: Ops<M>, code: seq<Instr>, i: nat, st: State<M>)
    requires Total(st) && i < |code| && code[|code| - 1] == Ret && forall i :: 0 <= i < |code| - 1 ==> Straight(code[i])
    ensures Run(ops, code, code[i..], st, 0) == Done(All(ops, code[i..|code| - 1], st))
    decreases |code| - i
  {
    assert code[i..][0] == code[i] && code[i..][1..] == code[i + 1..];
    if i < |code| - 1 {
      assert code[i..|code| - 1][1..] == code[i + 1..|code| - 1];
      RunTail(ops, code, i + 1, Exec(ops, code[i], st));
    }
  }

  ghost function All<M>(ops: Ops<M>, code: seq<Instr>, st: State<M>): (r: State<M>)
    requires Total(st) && forall i :: 0 <= i < |code| ==> Straight(code[i])
    ensures Total(r)
  {
    if code == [] then st else All(ops, code[1..], Exec(ops, code[0], st))
  }

  // ----- the pass -----

  class RegTracker {
    var regSlot: map<Reg, nat>
    var slotReg: map<nat, Reg>
    var slotImm: map<nat, int>
    var slotImmInstr: map<nat, Width>

    ghost function Believed(): Tracker
      reads this
    {
      Tracker(regSlot, slotReg, slotImm, slotImmInstr)
    }

    constructor ()
      ensures Believed() == Nothing
    {
      regSlot, slotReg, slotImm, slotImmInstr := map[], map[], map[], map[];
    }

    method InvalidateReg(r: Reg)
      modifies this
      ensures Believed() == ForgetReg(old(Believed()), r)
    {
      if r in regSlot {
        var s := regSlot[r];
        if s in slotReg && slotReg[s] == r {
          slotReg := slotReg - {s};
        }
        regSlot := regSlot - {r};
      }
    }

    method InvalidateSlot(s: nat)
      modifies this
      ensures Believed() == ForgetSlot(old(Believed()), s)
    {
      if s in slotReg {
        regSlot := regSlot - {slotReg[s]};
        slotReg := slotReg - {s};
      }
      slotImm, slotImmInstr := slotImm - {s}, slotImmInstr - {s};
    }

    method InvalidateCallerSaves()
      modifies this
      ensures Believed() == ForgetCallerSaves(old(Believed()))
    {
      for j := 0 to |CallerSaves|
        invariant Believed() == ForgetRegs(old(Believed()), CallerSaves[..j])
      {
        assert CallerSaves[..j + 1][..j] == CallerSaves[..j];
        InvalidateReg(CallerSaves[j]);
      }
      assert CallerSaves[..|CallerSaves|] == CallerSaves;
      slotImm, slotImmInstr := map[], map[];
    }

    method InvalidateAll()
      modifies this
      ensures Believed() == Nothing
    {
      regSlot, slotReg, slotImm, slotImmInstr := map[], map[], map[], map[];
    }

    /** Register `r`, just invalidated, takes on slot `s`. */
    method MirrorSlot(r: Reg, s: nat)
      modifies this
      ensures Believed() == Mirror(old(Believed()), r, s)
    {
      regSlot := regSlot[r := s];
      if s !in slotReg {
        slotReg := slotReg[s := r];
      }
    }

    /** A load: dropped, or turned into the immediate or the register the slot is known to equal. */
    method ForLoad(w: Width, slot: nat, dst: Reg) returns (out: seq<Instr>)
      ensures out == Emitted(Believed(), Load(w, slot, dst))
    {
      if dst in regSlot && regSlot[dst] == slot {
        return [];
      }
      if slot in slotImm && slot in slotImmInstr && slotImmInstr[slot] == w {
        return [LoadImm(w, slotImm[slot], dst)];
      }
      if slot in slotReg && slotReg[slot] != dst && FamilyMatches(w, slotReg[slot]) {
        return [Move(w, slotReg[slot], dst)];
      }
      return [Load(w, slot, dst)];
    }

    method LookLoad(w: Width, slot: nat, dst: Reg)
      modifies this
      ensures Believed() == Step(old(Believed()), Load(w, slot, dst))
    {
      if dst in regSlot && regSlot[dst] == slot {
        return;
      }
      InvalidateReg(dst);
      MirrorSlot(dst, slot);
    }

    method LookMove(w: Width, src: Reg, dst: Reg)
      modifies this
      ensures Believed() == Step(old(Believed()), Move(w, src, dst))
    {
      ghost var before := Believed();
      var tracked := src in regSlot && FamilyMatches(w, dst);
      var srcSlot := if src in regSlot then regSlot[src] else 0;
      InvalidateReg(dst);
      assert Believed() == ForgetReg(before, dst);
      if tracked {
        MirrorSlot(dst, srcSlot);
        assert Believed() == Mirror(ForgetReg(before, dst), dst, before.regSlot[src]);
      }
    }

    method LookStore(i: Instr)
      requires i.Store? || i.StoreImm? || i.StoreOther?
      modifies this
      ensures Believed() == Step(old(Believed()), i)
    {
      InvalidateSlot(i.slot);
      if i.Store? {
        InvalidateReg(i.src);
        regSlot, slotReg := regSlot[i.src := i.slot], slotReg[i.slot := i.src];
      } else if i.StoreImm? && (i.w.MovL? || i.w.MovQ?) {
        slotImm, slotImmInstr := slotImm[i.slot := i.imm], slotImmInstr[i.slot := i.w];
      }
    }

    /** Takes in one instruction and says what to emit for it. */
    method Look(i: Instr) returns (out: seq<Instr>)
      modifies this
      ensures out == Emitted(old(Believed()), i)
      ensures Believed() == Step(old(Believed()), i)
    {
      out := [i];
      match i {
        case Call(_) => InvalidateCallerSaves();
        case Store(_, _, _) => LookStore(i);
        case StoreImm(_, _, _) => LookStore(i);
        case StoreOther(_, _, _) => LookStore(i);
        case Load(w, slot, dst) =>
          out := ForLoad(w, slot, dst);
          LookLoad(w, slot, dst);
        case Move(w, src, dst) => LookMove(w, src, dst);
        case LoadImm(_, _, dst) => InvalidateReg(dst);
        case LoadOther(_, _, dst, _) => InvalidateReg(dst);
        case Effect(_, writes, _) =>
          if writes.Some? {
            InvalidateReg(writes.value);
          }
        case _ => InvalidateAll();
      }
    }

    /** The whole pass. */
    method Rewrite(code: seq<Instr>) returns (out: seq<Instr>)
      requires Believed() == Nothing
      modifies this
      ensures out == Sweep(Nothing, code)
    {
      out := [];
      for i := 0 to |code|
        invariant out + Sweep(Believed(), code[i..]) == Sweep(Nothing, code)
      {
        assert code[i..][0] == code[i] && code[i..][1..] == code[i + 1..];
        var emitted := Look(code[i]);
        out := out + emitted;
      }
    }
  }
}
