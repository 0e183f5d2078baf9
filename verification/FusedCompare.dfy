/** The conditional jumps that comparisons fused into a branch become. */
module FusedCompare {

  /** Operand widths in bits. */
  datatype Width = W32 | W64

  function Modulus(w: Width): nat {
    match w
    case W32 => 0x1_0000_0000
    case W64 => 0x1_0000_0000_0000_0000
  }

  predicate Fits(w: Width, x: int) {
    0 <= x < Modulus(w)
  }

  /** A bit pattern read as a signed number. */
  function Signed(w: Width, x: int): int
    requires Fits(w, x)
  {
    if x < Modulus(w) / 2 then x else x - Modulus(w)
  }

  /** A bit pattern after wrap-around. */
  function Wrapped(w: Width, x: int): (r: int)
    ensures Fits(w, r)
  {
    x % Modulus(w)
  }

  // ----- flags -----

  datatype Flags = Flags(zero: bool, carry: bool, sign: bool, overflow: bool)

  /** CMP subtracts and sets the flags from the difference. */
  function Cmp(w: Width, a: int, b: int): Flags
    requires Fits(w, a) && Fits(w, b)
  {
    var d := Wrapped(w, a - b);
    var exact := Signed(w, a) - Signed(w, b);
    Flags(d == 0, a < b, Signed(w, d) < 0, !(-(Modulus(w) / 2) <= exact < Modulus(w) / 2))
  }

  /** TEST of a value with itself. */
  function Test(w: Width, a: int): Flags
    requires Fits(w, a)
  {
    Flags(a == 0, false, Signed(w, a) < 0, false)
  }

  function Pow2(k: nat): (r: nat)
    ensures r > 0
  {
    if k == 0 then 1 else 2 * Pow2(k - 1)
  }

  /** BT copies one bit to the carry flag. */
  function BitTest(a: nat, k: nat): Flags {
    Flags(false, a / Pow2(k) % 2 == 1, false, false)
  }

  // ----- conditional jumps -----

  datatype Jcc = JE | JNE | JLT | JGE | JCS | JCC | JLE | JGT | JLS | JHI

  predicate Jumps(j: Jcc, f: Flags) {
    match j
    case JE => f.zero
    case JNE => !f.zero
    case JLT => f.sign != f.overflow
    case JGE => f.sign == f.overflow
    case JCS => f.carry
    case JCC => !f.carry
    case JLE => f.zero || f.sign != f.overflow
    case JGT => !f.zero && f.sign == f.overflow
    case JLS => f.carry || f.zero
    case JHI => !f.carry && !f.zero
  }

  /** The comparisons a branch may absorb; `BitEq` and `BitNe` compare one bit with zero. */
  datatype Kind = Eqz | Eq | Ne | LtS | LtU | LeS | LeU | BitEq | BitNe

  /** The jump taken when the comparison holds, and the one taken when it does not. */
  function Lowered(k: Kind): (Jcc, Jcc) {
    match k
    case Eqz => (JE, JNE)
    case Eq => (JE, JNE)
    case Ne => (JNE, JE)
    case LtS => (JLT, JGE)
    case LtU => (JCS, JCC)
    case LeS => (JLE, JGT)
    case LeU => (JLS, JHI)
    case BitEq => (JCC, JCS)
    case BitNe => (JCS, JCC)
  }

  /** What the flags are set from: for the bit tests `b` is the bit position. */
  function FlagsOf(k: Kind, w: Width, a: nat, b: nat): Flags
    requires Fits(w, a) && Fits(w, b)
  {
    if k.Eqz? then Test(w, a) else if k.BitEq? || k.BitNe? then BitTest(a, b) else Cmp(w, a, b)
  }

  /** What the comparison means. */
  predicate Means(k: Kind, w: Width, a: nat, b: nat)
    requires Fits(w, a) && Fits(w, b)
  {
    match k
    case Eqz => a == 0
    case Eq => a == b
    case Ne => a != b
    case LtS => Signed(w, a) < Signed(w, b)
    case LtU => a < b
    case LeS => Signed(w, a) <= Signed(w, b)
    case LeU => a <= b
    case BitEq => a / Pow2(b) % 2 == 0
    case BitNe => a / Pow2(b) % 2 != 0
  }

  /** A difference wraps to zero only for equal patterns. */
  lemma WrapZero(w: Width, a: int, b: int)
    requires Fits(w, a) && Fits(w, b)
    ensures Wrapped(w, a - b) == 0 <==> a == b
  {
    if a < b {
      WrapOnce(w, a - b);
    }
  }

  lemma WrapOnce(w: Width, d: int)
    requires 0 < d + Modulus(w) && d < Modulus(w)
    ensures d >= 0 ==> Wrapped(w, d) == d
    ensures d < 0 ==> Wrapped(w, d) == d + Modulus(w)
  {
    match w
    case W32 =>
    case W64 =>
  }

  /** The sign of the wrapped difference and the overflow differ exactly when the first operand
      is the smaller as a signed number. */
  lemma SignedLess(w: Width, a: int, b: int)
    requires Fits(w, a) && Fits(w, b)
    ensures (Cmp(w, a, b).sign != Cmp(w, a, b).overflow) <==> Signed(w, a) < Signed(w, b)
  {
    WrapOnce(w, a - b);
  }

  /** For every pair of operands the chosen jump is taken exactly when the comparison holds, and the
      inverse exactly when it does not. */
  lemma LoweringIsRight(k: Kind, w: Width, a: nat, b: nat)
    requires Fits(w, a) && Fits(w, b)
    ensures Jumps(Lowered(k).0, FlagsOf(k, w, a, b)) <==> Means(k, w, a, b)
    ensures Jumps(Lowered(k).1, FlagsOf(k, w, a, b)) <==> !Means(k, w, a, b)
  {
    WrapZero(w, a, b);
    SignedLess(w, a, b);
  }
}
