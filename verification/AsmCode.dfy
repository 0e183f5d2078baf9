/** The instruction list the post-passes work on, and what running it means. */
module AsmCode {
  import opened Basics

  datatype Reg =
    | AX | BX | CX | DX | SI | DI | BP | R8 | R9 | R10 | R11 | R12 | R13 | R14 | R15
    | X0 | X1 | X2 | X3 | X4 | X5 | X6 | X7

  datatype Width = MovL | MovQ | MovSS | MovSD

  /** The labels of blocks, and those inside the code of one operation or branch. */
  datatype Label = BlockLabel(n: nat) | InnerLabel(n: nat)

  /** Slots are stack offsets.  `uses` lists the slots an instruction names. */
  datatype Instr =
    | Define(l: Label)
    | Jump(l: Label)
    | Branch(id: nat, l: Label)
    | Call(id: nat)
    | Ret
    | Store(w: Width, src: Reg, slot: nat)
    | StoreImm(w: Width, imm: int, slot: nat)
    | StoreOther(w: Width, id: nat, slot: nat)
    | Load(w: Width, slot: nat, dst: Reg)
    | Move(w: Width, src: Reg, dst: Reg)
    | LoadImm(w: Width, imm: int, dst: Reg)
    | LoadOther(w: Width, id: nat, dst: Reg, uses: seq<nat>)
    | Effect(id: nat, writes: Option<Reg>, uses: seq<nat>)

  /** Registers, stack slots, and everything else: flags, memory, other registers. */
  datatype State<M> = State(regs: imap<Reg, int>, slots: imap<nat, int>, rest: M)

  ghost predicate Total<M>(st: State<M>) {
    (forall r: Reg :: r in st.regs) && (forall s: nat :: s in st.slots)
  }

  /** What the instructions that are not moves do.  `value` and `after` see the registers,
      the slots the instruction names, and the rest. */
  datatype Ops<!M> = Ops(
    value: (nat, imap<Reg, int>, seq<int>, M) -> int,
    after: (nat, imap<Reg, int>, seq<int>, M) -> M,
    test: (nat, imap<Reg, int>, M) -> bool,
    call: (nat, State<M>) -> State<M>
  )

  ghost predicate Sound<M(!new)>(ops: Ops<M>) {
    forall id: nat, st: State<M> :: Total(st) ==> Total(ops.call(id, st))
  }

  ghost function Named<M>(st: State<M>, uses: seq<nat>): seq<int>
    requires Total(st)
  {
    seq(|uses|, i requires 0 <= i < |uses| => st.slots[uses[i]])
  }

  predicate Straight(i: Instr) {
    !i.Define? && !i.Jump? && !i.Branch? && !i.Call? && !i.Ret?
  }

  /** One straight-line instruction.  Moves copy whole values. */
  ghost function Exec<M>(ops: Ops<M>, i: Instr, st: State<M>): (r: State<M>)
    requires Total(st) && Straight(i)
    ensures Total(r)
  {
    match i
    case Store(_, src, slot) => st.(slots := st.slots[slot := st.regs[src]])
    case StoreImm(_, imm, slot) => st.(slots := st.slots[slot := imm])
    case StoreOther(_, id, slot) => st.(slots := st.slots[slot := ops.value(id, st.regs, [], st.rest)])
    case Load(_, slot, dst) => st.(regs := st.regs[dst := st.slots[slot]])
    case Move(_, src, dst) => st.(regs := st.regs[dst := st.regs[src]])
    case LoadImm(_, imm, dst) => st.(regs := st.regs[dst := imm])
    case LoadOther(_, id, dst, uses) => st.(regs := st.regs[dst := ops.value(id, st.regs, Named(st, uses), st.rest)])
    case Effect(id, writes, uses) =>
      var named := Named(st, uses);
      var regs := if writes.Some? then st.regs[writes.value := ops.value(id, st.regs, named, st.rest)] else st.regs;
      st.(regs := regs, rest := ops.after(id, st.regs, named, st.rest))
  }

  /** How a run ends; `Cut` is a run out of fuel at a jump. */
  datatype End<M> = Done(st: State<M>) | Cut(l: Label, st: State<M>) | Lost

  /** What follows the first definition of a label. */
  function After(code: seq<Instr>, l: Label): Option<seq<Instr>> {
    if code == [] then None
    else if code[0] == Define(l) then Some(code[1..])
    else After(code[1..], l)
  }

  /** Runs `here`, a tail of `code`, with fuel for `k` jumps. */
  ghost function Run<M>(ops: Ops<M>, code: seq<Instr>, here: seq<Instr>, st: State<M>, k: nat): End<M>
    requires Total(st)
    decreases k, |here|
  {
    if here == [] then Done(st)
    else match here[0]
      case Ret => Done(st)
      case Define(_) => Run(ops, code, here[1..], st, k)
      case Jump(l) => RunAt(ops, code, l, st, k)
      case Branch(id, l) =>
        if ops.test(id, st.regs, st.rest) then RunAt(ops, code, l, st, k) else Run(ops, code, here[1..], st, k)
      case Call(id) =>
        var st' := ops.call(id, st);
        if Total(st') then Run(ops, code, here[1..], st', k) else Lost
      case i => Run(ops, code, here[1..], Exec(ops, i, st), k)
  }

  ghost function RunAt<M>(ops: Ops<M>, code: seq<Instr>, l: Label, st: State<M>, k: nat): End<M>
    requires Total(st)
    decreases k, 0
  {
    if k == 0 then Cut(l, st)
    else match After(code, l)
      case None => Lost
      case Some(here) => Run(ops, code, here, st, k - 1)
  }
}
