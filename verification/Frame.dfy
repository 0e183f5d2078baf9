/** Frame offsets and the sizes of value types. */
module Frame {

  datatype Type = I32 | F32 | Boolean | I64 | F64 | V128 | NoSlot

  function SlotSize(t: Type): nat {
    match t
    case I32 => 4
    case F32 => 4
    case Boolean => 4
    case I64 => 8
    case F64 => 8
    case V128 => 16
    case NoSlot => 0
  }

  function SlotAlign(t: Type): nat {
    match t
    case I32 => 4
    case F32 => 4
    case Boolean => 4
    case I64 => 8
    case F64 => 8
    case V128 => 8
    case NoSlot => 1
  }

  /** The alignments in use. */
  predicate IsAlign(al: nat) {
    al == 1 || al == 4 || al == 8
  }

  predicate Aligned(off: nat, al: nat) {
    (al == 4 ==> off % 4 == 0) && (al == 8 ==> off % 8 == 0)
  }

  /** The least multiple of `al` that is at least `off`. */
  function AlignUp(off: nat, al: nat): (r: nat)
    requires IsAlign(al)
    ensures off <= r < off + al && Aligned(r, al)
  {
    RoundsUp(off);
    if al == 1 then off
    else if al == 4 then (if off % 4 == 0 then off else off + (4 - off % 4))
    else if off % 8 == 0 then off else off + (8 - off % 8)
  }

  lemma RoundsUp(off: nat)
    ensures (off + (4 - off % 4)) % 4 == 0 && (off + (8 - off % 8)) % 8 == 0
  {
    assert off + (4 - off % 4) == 4 * (off / 4 + 1);
    assert off + (8 - off % 8) == 8 * (off / 8 + 1);
  }

  /** Byte ranges `[o, o + n)` and `[p, p + m)` share no byte. */
  predicate Apart(o: nat, n: nat, p: nat, m: nat) {
    o + n <= p || p + m <= o
  }
}
