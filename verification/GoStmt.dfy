/** The structured Go statements the emitter produces, with Go's rules for what
    `break` and `continue` bind to. */
module GoStmt {
  import opened Basics
  import opened Cfg

  datatype Stmt =
    | Values(b: nat)                          // the value statements of block b
    | Copies(pred: nat, target: nat, index: nat)  // the phi copies of an edge
    | Return(b: nat)
    | TrapCall(b: nat)
    | ThrowStmt(b: nat)
    | IfStmt(b: nat, thn: seq<Stmt>, els: seq<Stmt>)
    | SwitchStmt(b: nat, clauses: seq<Clause>)
    | ForStmt(lbl: Option<nat>, body: seq<Stmt>)
    | Break(lbl: Option<nat>)
    | Continue(lbl: Option<nat>)

  /** One switch clause; a `default:` clause ignores `cases`. */
  datatype Clause = Clause(isDefault: bool, cases: seq<int>, arm: seq<Stmt>)

  /** Where control goes after a statement completes. */
  datatype Ctrl = Fall | Brk(lbl: Option<nat>) | Cnt(lbl: Option<nat>)

  /** Either the whole run ended, or control is on its way with fuel `k` left. */
  datatype Outcome<+S> = Done(c: Ctrl, s: S, k: nat) | Over(e: End<S>)

  /** The clause a switch on value `v` enters: the first listed one, else the
      default, else none (`|clauses|`). */
  function Choose(clauses: seq<Clause>, v: int): (i: nat)
    ensures i <= |clauses|
  {
    var i := FirstListed(clauses, v);
    if i < |clauses| then i else FirstDefault(clauses)
  }

  function FirstListed(clauses: seq<Clause>, v: int): (i: nat)
    ensures i <= |clauses|
    ensures i < |clauses| ==> !clauses[i].isDefault && v in clauses[i].cases
    ensures forall j :: 0 <= j < i ==> clauses[j].isDefault || v !in clauses[j].cases
  {
    if clauses == [] then 0
    else if !clauses[0].isDefault && v in clauses[0].cases then 0
    else 1 + FirstListed(clauses[1..], v)
  }

  function FirstDefault(clauses: seq<Clause>): (i: nat)
    ensures i <= |clauses|
    ensures i < |clauses| ==> clauses[i].isDefault
    ensures forall j :: 0 <= j < i ==> !clauses[j].isDefault
  {
    if clauses == [] || clauses[0].isDefault then 0 else 1 + FirstDefault(clauses[1..])
  }

  ghost function FromStep<S>(r: Step<S>, k: nat): Outcome<S> {
    match r
    case Go(s') => Done(Fall, s', k)
    case Panic(s') => Over(Panicked(s'))
  }

  ghost function Exec<S>(m: Machine<S>, st: Stmt, s: S, k: nat): (o: Outcome<S>)
    ensures o.Done? ==> o.k <= k
    decreases k, st, 0
  {
    match st
    case Values(b) => if k == 0 then Over(OutOfFuel(b, s)) else FromStep(m.body(b, s), k - 1)
    case Copies(p, t, i) => FromStep(m.edge(p, t, i, s), k)
    case Return(b) => Over(Returned(b, s))
    case TrapCall(b) => Over(Trapped(b, s))
    case ThrowStmt(b) => Over(Thrown(b, s))
    case IfStmt(b, thn, els) => if m.cond(b, s) then ExecSeq(m, thn, s, k) else ExecSeq(m, els, s, k)
    case SwitchStmt(b, clauses) =>
      var i := Choose(clauses, m.sel(b, s));
      if i == |clauses| then Done(Fall, s, k) else LeaveSwitch(ExecSeq(m, clauses[i].arm, s, k))
    case ForStmt(lbl, body) =>
      var o := ExecSeq(m, body, s, k);
      if o.Over? then o
      else if o.c == Brk(None) || (lbl.Some? && o.c == Brk(lbl)) then Done(Fall, o.s, o.k)
      else if o.c == Fall || o.c == Cnt(None) || (lbl.Some? && o.c == Cnt(lbl)) then
        if o.k < k then Exec(m, st, o.s, o.k) else Over(Diverged)
      else o
    case Break(lbl) => Done(Brk(lbl), s, k)
    case Continue(lbl) => Done(Cnt(lbl), s, k)
  }

  /** A bare `break` inside a switch leaves the switch. */
  ghost function LeaveSwitch<S>(o: Outcome<S>): Outcome<S> {
    if o.Done? && o.c == Brk(None) then o.(c := Fall) else o
  }

  ghost function ExecSeq<S>(m: Machine<S>, sts: seq<Stmt>, s: S, k: nat): (o: Outcome<S>)
    ensures o.Done? ==> o.k <= k
    decreases k, sts, 0
  {
    if sts == [] then Done(Fall, s, k)
    else
      var o := Exec(m, sts[0], s, k);
      if o.Done? && o.c == Fall then ExecSeq(m, sts[1..], o.s, o.k) else o
  }

  ghost function Then<S>(m: Machine<S>, o: Outcome<S>, sts: seq<Stmt>): Outcome<S> {
    if o.Done? && o.c == Fall then ExecSeq(m, sts, o.s, o.k) else o
  }

  lemma {:induction false} ExecConcat<S>(m: Machine<S>, a: seq<Stmt>, b: seq<Stmt>, s: S, k: nat)
    ensures ExecSeq(m, a + b, s, k) == Then(m, ExecSeq(m, a, s, k), b)
    decreases a
  {
    if a == [] {
      assert a + b == b;
    } else {
      assert (a + b)[0] == a[0] && (a + b)[1..] == a[1..] + b;
      var o := Exec(m, a[0], s, k);
      if o.Done? && o.c == Fall {
        ExecConcat(m, a[1..], b, o.s, o.k);
      }
    }
  }

  lemma ExecOne<S>(m: Machine<S>, st: Stmt, s: S, k: nat)
    ensures ExecSeq(m, [st], s, k) == Exec(m, st, s, k)
  {
  }
}
