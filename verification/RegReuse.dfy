/** Which loads register tracking replaces: those of a slot that was written or read before, when
    neither the slot nor the register that holds it is written in between. */
module RegReuse {
  import opened Basics
  import opened AsmCode
  import opened RegTrack

  function Written(i: Instr): Option<Reg> {
    match i
    case Load(_, _, dst) => Some(dst)
    case Move(_, _, dst) => Some(dst)
    case LoadImm(_, _, dst) => Some(dst)
    case LoadOther(_, _, dst, _) => Some(dst)
    case Effect(_, writes, _) => writes
    case _ => None
  }

  /** Control goes straight on, and the slot is not written. */
  predicate SparesSlot(i: Instr, slot: nat) {
    Straight(i) && ((i.Store? || i.StoreImm? || i.StoreOther?) ==> i.slot != slot)
  }

  /** Nor is register `r` written, or stored elsewhere. */
  predicate Spares(i: Instr, r: Reg, slot: nat) {
    SparesSlot(i, slot) && Written(i) != Some(r) && (i.Store? ==> i.src != r)
  }

  predicate AllSpare(code: seq<Instr>, r: Reg, slot: nat) {
    forall i :: 0 <= i < |code| ==> Spares(code[i], r, slot)
  }

  predicate AllSpareSlot(code: seq<Instr>, slot: nat) {
    forall i :: 0 <= i < |code| ==> SparesSlot(code[i], slot)
  }

  // ----- what stays known -----

  predicate Maps(t: Tracker, r: Reg, slot: nat) {
    r in t.regSlot && t.regSlot[r] == slot
  }

  predicate Chosen(t: Tracker, r: Reg, slot: nat) {
    slot in t.slotReg && t.slotReg[slot] == r && slot !in t.slotImm
  }

  /** Register `r` is known to mirror the slot. */
  ghost predicate Holds(t: Tracker, r: Reg, slot: nat) {
    Consistent(t) && Maps(t, r, slot)
  }

  /** Register `r` is the source for the slot, which holds no known immediate. */
  ghost predicate Source(t: Tracker, r: Reg, slot: nat) {
    Consistent(t) && Chosen(t, r, slot)
  }

  ghost predicate KnownImm(t: Tracker, w: Width, imm: int, slot: nat) {
    Consistent(t) && slot in t.slotImm && t.slotImm[slot] == imm
    && slot in t.slotImmInstr && t.slotImmInstr[slot] == w
  }

  lemma ForgetRegConsistent(t: Tracker, r: Reg)
    requires Consistent(t)
    ensures Consistent(ForgetReg(t, r)) && r !in ForgetReg(t, r).regSlot
    ensures forall s :: s in ForgetReg(t, r).slotReg <==> s in t.slotReg && t.slotReg[s] != r
  {
  }

  lemma StepConsistent(t: Tracker, i: Instr)
    requires Consistent(t)
    ensures Consistent(Step(t, i))
  {
    match i
    case Call(_) => ForgetRegsForgets(t, CallerSaves);
    case Store(_, src, slot) =>
      ForgetSlotLeaves(t, slot);
      ForgetRegConsistent(ForgetSlot(t, slot), src);
    case StoreImm(_, _, slot) => ForgetSlotLeaves(t, slot);
    case StoreOther(_, _, slot) => ForgetSlotLeaves(t, slot);
    case Load(_, _, dst) => ForgetRegConsistent(t, dst);
    case Move(_, _, dst) => ForgetRegConsistent(t, dst);
    case LoadImm(_, _, dst) => ForgetRegConsistent(t, dst);
    case LoadOther(_, _, dst, _) => ForgetRegConsistent(t, dst);
    case Effect(_, writes, _) => if writes.Some? { ForgetRegConsistent(t, writes.value); }
    case _ =>
  }

  lemma ForgetRegSpares(t: Tracker, q: Reg, r: Reg, slot: nat)
    requires q != r
    ensures Maps(t, r, slot) ==> Maps(ForgetReg(t, q), r, slot)
    ensures Chosen(t, r, slot) ==> Chosen(ForgetReg(t, q), r, slot)
  {
  }

  lemma ForgetSlotSpares(t: Tracker, s: nat, r: Reg, slot: nat)
    requires s != slot && (s in t.slotReg ==> t.slotReg[s] != r)
    ensures Maps(t, r, slot) ==> Maps(ForgetSlot(t, s), r, slot)
    ensures Chosen(t, r, slot) ==> Chosen(ForgetSlot(t, s), r, slot)
  {
  }

  /** A register that mirrors the slot, or is its source, is the source for no other. */
  lemma NoOtherSource(t: Tracker, s: nat, r: Reg, slot: nat)
    requires Consistent(t) && s != slot && (Maps(t, r, slot) || Chosen(t, r, slot))
    ensures s in t.slotReg ==> t.slotReg[s] != r
  {
  }

  lemma SlotWriteSpares(t: Tracker, i: Instr, r: Reg, slot: nat)
    requires (i.Store? || i.StoreImm? || i.StoreOther?) && Spares(i, r, slot)
    requires i.slot in t.slotReg ==> t.slotReg[i.slot] != r
    ensures Maps(t, r, slot) ==> Maps(Step(t, i), r, slot)
    ensures Chosen(t, r, slot) ==> Chosen(Step(t, i), r, slot)
  {
    ForgetSlotSpares(t, i.slot, r, slot);
    if i.Store? {
      ForgetRegSpares(ForgetSlot(t, i.slot), i.src, r, slot);
    }
  }

  lemma RegWriteSpares(t: Tracker, i: Instr, r: Reg, slot: nat)
    requires !i.Store? && !i.StoreImm? && !i.StoreOther? && Spares(i, r, slot)
    ensures Maps(t, r, slot) ==> Maps(Step(t, i), r, slot)
    ensures Chosen(t, r, slot) ==> Chosen(Step(t, i), r, slot)
  {
    if Written(i).Some? {
      ForgetRegSpares(t, Written(i).value, r, slot);
    }
  }

  /** What is known of a register and its slot outlasts an instruction that spares them. */
  lemma KnownOn(t: Tracker, i: Instr, r: Reg, slot: nat)
    requires Spares(i, r, slot) && (Holds(t, r, slot) || Source(t, r, slot))
    ensures Holds(t, r, slot) ==> Holds(Step(t, i), r, slot)
    ensures Source(t, r, slot) ==> Source(Step(t, i), r, slot)
  {
    StepConsistent(t, i);
    if i.Store? || i.StoreImm? || i.StoreOther? {
      NoOtherSource(t, i.slot, r, slot);
      SlotWriteSpares(t, i, r, slot);
    } else {
      RegWriteSpares(t, i, r, slot);
    }
  }

  lemma KnownImmOn(t: Tracker, i: Instr, w: Width, imm: int, slot: nat)
    requires KnownImm(t, w, imm, slot) && SparesSlot(i, slot)
    ensures KnownImm(Step(t, i), w, imm, slot)
  {
    StepConsistent(t, i);
  }

  // ----- over a stretch of code -----

  /** What the tracker believes after `code`. */
  function Through(t: Tracker, code: seq<Instr>): Tracker
    decreases code
  {
    if code == [] then t else Through(Step(t, code[0]), code[1..])
  }

  lemma Joined<T>(a: seq<T>, b: seq<T>, c: seq<T>)
    ensures a + (b + c) == (a + b) + c
  {
  }

  lemma ConcatCons(t: Tracker, i: Instr, tail: seq<Instr>, rest: seq<Instr>, u: Tracker)
    requires Sweep(Step(t, i), tail + rest) == Sweep(Step(t, i), tail) + Sweep(u, rest)
    ensures Sweep(t, [i] + tail + rest) == Sweep(t, [i] + tail) + Sweep(u, rest)
  {
    SweepCons(t, i, tail + rest);
    SweepCons(t, i, tail);
    Joined([i], tail, rest);
    Joined(Emitted(t, i), Sweep(Step(t, i), tail), Sweep(u, rest));
  }

  lemma {:induction false} SweepConcat(t: Tracker, code: seq<Instr>, rest: seq<Instr>)
    ensures Sweep(t, code + rest) == Sweep(t, code) + Sweep(Through(t, code), rest)
    decreases code
  {
    if code == [] {
      assert code + rest == rest;
    } else {
      var i, tail := code[0], code[1..];
      SweepConcat(Step(t, i), tail, rest);
      ConcatCons(t, i, tail, rest, Through(Step(t, i), tail));
      assert code == [i] + tail;
    }
  }

  lemma SweepSnoc(t: Tracker, code: seq<Instr>, i: Instr)
    ensures Sweep(t, code + [i]) == Sweep(t, code) + Emitted(Through(t, code), i)
  {
    var u := Through(t, code);
    SweepConcat(t, code, [i]);
    SweepCons(u, i, []);
    assert [i] + [] == [i] && Sweep(Step(u, i), []) == [];
  }

  /** The sweep is consistent wherever it has come to. */
  lemma {:induction false} ThroughConsistent(t: Tracker, code: seq<Instr>)
    requires Consistent(t)
    ensures Consistent(Through(t, code))
    decreases code
  {
    if code != [] {
      StepConsistent(t, code[0]);
      ThroughConsistent(Step(t, code[0]), code[1..]);
    }
  }

  lemma {:induction false} HoldsThrough(t: Tracker, code: seq<Instr>, r: Reg, slot: nat)
    requires Holds(t, r, slot) && AllSpare(code, r, slot)
    ensures Holds(Through(t, code), r, slot)
    decreases code
  {
    if code != [] {
      KnownOn(t, code[0], r, slot);
      HoldsThrough(Step(t, code[0]), code[1..], r, slot);
    }
  }

  lemma {:induction false} SourceThrough(t: Tracker, code: seq<Instr>, r: Reg, slot: nat)
    requires Source(t, r, slot) && AllSpare(code, r, slot)
    ensures Source(Through(t, code), r, slot)
    decreases code
  {
    if code != [] {
      KnownOn(t, code[0], r, slot);
      SourceThrough(Step(t, code[0]), code[1..], r, slot);
    }
  }

  lemma {:induction false} KnownImmThrough(t: Tracker, code: seq<Instr>, w: Width, imm: int, slot: nat)
    requires KnownImm(t, w, imm, slot) && AllSpareSlot(code, slot)
    ensures KnownImm(Through(t, code), w, imm, slot)
    decreases code
  {
    if code != [] {
      KnownImmOn(t, code[0], w, imm, slot);
      KnownImmThrough(Step(t, code[0]), code[1..], w, imm, slot);
    }
  }

  // ----- the loads that go -----

  /** A load into a register that was stored to the slot, or loaded from it, is dropped. */
  lemma ReloadDropped(t: Tracker, first: Instr, mid: seq<Instr>, w: Width, slot: nat, r: Reg)
    requires Consistent(t) && AllSpare(mid, r, slot)
    requires (first.Store? && first.src == r && first.slot == slot)
             || (first.Load? && first.dst == r && first.slot == slot)
    ensures Sweep(t, [first] + mid + [Load(w, slot, r)]) == Sweep(t, [first] + mid)
  {
    var code := [first] + mid;
    StepConsistent(t, first);
    HoldsThrough(Step(t, first), mid, r, slot);
    assert code[1..] == mid;
    SweepSnoc(t, code, Load(w, slot, r));
  }

  /** A load of a slot whose source is still there becomes a move from it, unless it is dropped. */
  lemma ReloadMoved(t: Tracker, from: Width, mid: seq<Instr>, w: Width, slot: nat, src: Reg, dst: Reg)
    requires Consistent(t) && AllSpare(mid, src, slot) && src != dst && FamilyMatches(w, src)
    ensures var code := [Store(from, src, slot)] + mid;
            var all := Sweep(t, code + [Load(w, slot, dst)]);
            if Holds(Through(t, code), dst, slot) then all == Sweep(t, code)
            else all == Sweep(t, code) + [Move(w, src, dst)]
  {
    var code := [Store(from, src, slot)] + mid;
    StepConsistent(t, code[0]);
    ForgetSlotLeaves(t, slot);
    SourceThrough(Step(t, code[0]), mid, src, slot);
    assert code[1..] == mid;
    SweepSnoc(t, code, Load(w, slot, dst));
  }

  /** A load of an immediate becomes a load of the immediate itself, unless it is dropped. */
  lemma ImmediateLoaded(t: Tracker, w: Width, imm: int, mid: seq<Instr>, slot: nat, dst: Reg)
    requires Consistent(t) && AllSpareSlot(mid, slot) && (w.MovL? || w.MovQ?)
    ensures var code := [StoreImm(w, imm, slot)] + mid;
            var all := Sweep(t, code + [Load(w, slot, dst)]);
            if Holds(Through(t, code), dst, slot) then all == Sweep(t, code)
            else all == Sweep(t, code) + [LoadImm(w, imm, dst)]
  {
    var code := [StoreImm(w, imm, slot)] + mid;
    StepConsistent(t, code[0]);
    KnownImmThrough(Step(t, code[0]), mid, w, imm, slot);
    assert code[1..] == mid;
    SweepSnoc(t, code, Load(w, slot, dst));
  }
}
