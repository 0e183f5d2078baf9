/** What the slots hold when they are read. */
module SlotMeaning {
  import opened Basics
  import opened Frame
  import opened SlotReuse
  import opened SlotAlloc

  /** Who wrote a byte: a value, and in which execution of its block. */
  datatype Token = Token(id: nat, stamp: nat)

  type Memory = map<nat, Token>

  function Bytes(o: nat, n: nat): (r: set<nat>)
    ensures forall x :: x in r <==> o <= x < o + n
  {
    if n == 0 then {} else Bytes(o, n - 1) + {o + n - 1}
  }

  function Write(mem: Memory, o: nat, n: nat, t: Token): Memory {
    mem + map x | x in Bytes(o, n) :: t
  }

  /** All `n` bytes at `o` were last written as `t`. */
  predicate Holds(mem: Memory, o: nat, n: nat, t: Token) {
    forall x :: o <= x < o + n ==> x in mem && mem[x] == t
  }

  lemma WriteSpares(mem: Memory, o: nat, n: nat, t: Token, p: nat, m: nat, u: Token)
    requires Holds(mem, o, n, t) && (Apart(o, n, p, m) || m == 0)
    ensures Holds(Write(mem, p, m, u), o, n, t)
  {
  }

  // ----- slots that stay apart -----

  /** A dedicated value overlaps nobody. */
  lemma DedicatedApart(f: seq<Block>, cross: set<nat>, pinned: set<nat>, lastUses: seq<map<nat, nat>>,
                       offsets: map<nat, nat>, cells: map<nat, Cell>, base: nat, off: nat, b: nat, i: nat, c: nat,
                       j: nat)
    requires Laid(f, cross, pinned, lastUses, offsets, cells, base, off)
    requires b < |f| && i < |f[b].values| && c < |f| && j < |f[c].values|
    requires f[b].values[i].id in offsets && f[c].values[j].id in offsets && f[b].values[i].id != f[c].values[j].id
    requires Dedicated(f[b].values[i], cross, pinned)
    ensures Apart(offsets[f[b].values[i].id], SlotSize(f[b].values[i].typ), offsets[f[c].values[j].id],
                  SlotSize(f[c].values[j].typ))
  {
    assert OwnedAt(cells, offsets, f[b].values[i], cross, pinned)
           && OwnedAt(cells, offsets, f[c].values[j], cross, pinned);
  }

  /** Two values of a block overlap only if one is defined after the last recorded read of the other. */
  lemma MeetingApart(f: seq<Block>, cross: set<nat>, pinned: set<nat>, lastUses: seq<map<nat, nat>>,
                     offsets: map<nat, nat>, cells: map<nat, Cell>, base: nat, off: nat, b: nat, j: nat, k: nat)
    requires DistinctIds(f) && Laid(f, cross, pinned, lastUses, offsets, cells, base, off)
    requires b < |f| && j < k < |f[b].values| && SlotSize(f[b].values[j].typ) > 0 && SlotSize(f[b].values[k].typ) > 0
    requires End(lastUses[b], f[b].values[j], j) >= k
    ensures f[b].values[j].id in offsets && f[b].values[k].id in offsets
    ensures Apart(offsets[f[b].values[j].id], SlotSize(f[b].values[j].typ), offsets[f[b].values[k].id],
                  SlotSize(f[b].values[k].typ))
  {
    var v, w := f[b].values[j], f[b].values[k];
    assert BlockDone(f[b], lastUses[b], cross, pinned, offsets);
    if Dedicated(v, cross, pinned) {
      DedicatedApart(f, cross, pinned, lastUses, offsets, cells, base, off, b, j, b, k);
    } else if Dedicated(w, cross, pinned) {
      DedicatedApart(f, cross, pinned, lastUses, offsets, cells, base, off, b, k, b, j);
    } else {
      assert Differ(offsets, v.id, w.id);
      assert OwnedAt(cells, offsets, v, cross, pinned) && OwnedAt(cells, offsets, w, cross, pinned);
    }
  }

  // ----- one execution of a block -----

  /** Memory after one value; phis are written on the edges. */
  ghost function StepValue(v: Value, offsets: map<nat, nat>, stamp: nat, mem: Memory): Memory {
    if v.isPhi || v.id !in offsets then mem else Write(mem, offsets[v.id], SlotSize(v.typ), Token(v.id, stamp))
  }

  /** Memory after the first `i` values of a block. */
  ghost function RunValues(blk: Block, offsets: map<nat, nat>, i: nat, stamp: nat, mem: Memory): Memory
    requires i <= |blk.values|
  {
    if i == 0 then mem else StepValue(blk.values[i - 1], offsets, stamp, RunValues(blk, offsets, i - 1, stamp, mem))
  }

  /** The values after `j` and before `i` write elsewhere. */
  ghost predicate Spared(blk: Block, offsets: map<nat, nat>, j: nat, i: nat)
    requires j < i <= |blk.values|
  {
    blk.values[j].id in offsets
    && forall k :: j < k < i ==> WritesElsewhere(blk.values[j], blk.values[k], offsets)
  }

  predicate WritesElsewhere(v: Value, w: Value, offsets: map<nat, nat>) {
    v.id in offsets && w.id in offsets ==>
      SlotSize(w.typ) == 0 || Apart(offsets[v.id], SlotSize(v.typ), offsets[w.id], SlotSize(w.typ))
  }

  lemma {:induction false} SparedHolds(blk: Block, offsets: map<nat, nat>, j: nat, i: nat, stamp: nat, mem: Memory)
    requires j < i <= |blk.values| && Spared(blk, offsets, j, i) && !blk.values[j].isPhi
    ensures Holds(RunValues(blk, offsets, i, stamp, mem), offsets[blk.values[j].id], SlotSize(blk.values[j].typ),
                  Token(blk.values[j].id, stamp))
    decreases i
  {
    if i > j + 1 {
      SparedHolds(blk, offsets, j, i - 1, stamp, mem);
      assert WritesElsewhere(blk.values[j], blk.values[i - 1], offsets);
    }
  }

  /** From its definition to its last recorded read a value's slot holds what this execution stored,
      whatever memory was before. */
  lemma ReadsOwn(f: seq<Block>, cross: set<nat>, pinned: set<nat>, lastUses: seq<map<nat, nat>>, offsets: map<nat, nat>,
                 cells: map<nat, Cell>, base: nat, off: nat, b: nat, j: nat, i: nat, stamp: nat, mem: Memory)
    requires DistinctIds(f) && Laid(f, cross, pinned, lastUses, offsets, cells, base, off)
    requires b < |f| && j < i <= |f[b].values| && SlotSize(f[b].values[j].typ) > 0 && !f[b].values[j].isPhi
    requires i <= End(lastUses[b], f[b].values[j], j) || i == j + 1
    ensures f[b].values[j].id in offsets
    ensures Holds(RunValues(f[b], offsets, i, stamp, mem), offsets[f[b].values[j].id], SlotSize(f[b].values[j].typ),
                  Token(f[b].values[j].id, stamp))
  {
    HasSlot(f, cross, pinned, lastUses, offsets, cells, base, off, b, j);
    forall k | j < k < i
      ensures WritesElsewhere(f[b].values[j], f[b].values[k], offsets)
    {
      if SlotSize(f[b].values[k].typ) > 0 {
        MeetingApart(f, cross, pinned, lastUses, offsets, cells, base, off, b, j, k);
      }
    }
    SparedHolds(f[b], offsets, j, i, stamp, mem);
  }

  lemma HasSlot(f: seq<Block>, cross: set<nat>, pinned: set<nat>, lastUses: seq<map<nat, nat>>, offsets: map<nat, nat>,
                cells: map<nat, Cell>, base: nat, off: nat, b: nat, j: nat)
    requires Laid(f, cross, pinned, lastUses, offsets, cells, base, off)
    requires b < |f| && j < |f[b].values| && SlotSize(f[b].values[j].typ) > 0
    ensures f[b].values[j].id in offsets
  {
    assert BlockDone(f[b], lastUses[b], cross, pinned, offsets);
  }

  /** So every recorded read of a value defined earlier in the block sees it; this includes the reads
      at the end of the block. */
  lemma RecordedReadsSeeIt(f: seq<Block>, cross: set<nat>, pinned: set<nat>, lastUses: seq<map<nat, nat>>,
                           offsets: map<nat, nat>, cells: map<nat, Cell>, base: nat, off: nat, b: nat, j: nat, at: nat,
                           stamp: nat, mem: Memory)
    requires DistinctIds(f) && Laid(f, cross, pinned, lastUses, offsets, cells, base, off)
    requires b < |f| && j < at <= |f[b].values| && SlotSize(f[b].values[j].typ) > 0 && !f[b].values[j].isPhi
    requires f[b].values[j].id !in cross && ReadAt(f[b], f[b].values[j].id, at)
    ensures f[b].values[j].id in offsets
    ensures Holds(RunValues(f[b], offsets, at, stamp, mem), offsets[f[b].values[j].id], SlotSize(f[b].values[j].typ),
                  Token(f[b].values[j].id, stamp))
  {
    assert BlockDone(f[b], lastUses[b], cross, pinned, offsets);
    assert DefinedIn(f[b], f[b].values[j].id);
    ReadsOwn(f, cross, pinned, lastUses, offsets, cells, base, off, b, j, at, stamp, mem);
  }

  // ----- any run -----

  /** A store to the slot of value `i` of block `b`. */
  datatype Store = Store(b: nat, i: nat, stamp: nat)

  ghost predicate Stores(f: seq<Block>, offsets: map<nat, nat>, es: seq<Store>) {
    forall x ::
      0 <= x < |es| ==> es[x].b < |f| && es[x].i < |f[es[x].b].values| && f[es[x].b].values[es[x].i].id in offsets
  }

  ghost function StoreTo(f: seq<Block>, offsets: map<nat, nat>, e: Store, mem: Memory): Memory
    requires Stores(f, offsets, [e])
  {
    assert [e][0] == e;
    var v := f[e.b].values[e.i];
    Write(mem, offsets[v.id], SlotSize(v.typ), Token(v.id, e.stamp))
  }

  ghost function RunStores(f: seq<Block>, offsets: map<nat, nat>, es: seq<Store>, mem: Memory): Memory
    requires Stores(f, offsets, es)
  {
    if es == [] then mem else StoreTo(f, offsets, es[|es| - 1], RunStores(f, offsets, es[..|es| - 1], mem))
  }

  /** The slot of value `i` of block `b` holds `t`. */
  ghost predicate SlotHolds(f: seq<Block>, offsets: map<nat, nat>, b: nat, i: nat, t: Token, mem: Memory) {
    b < |f| && i < |f[b].values| && f[b].values[i].id in offsets
    && Holds(mem, offsets[f[b].values[i].id], SlotSize(f[b].values[i].typ), t)
  }

  /** Where one of two different values is dedicated, a store to the other leaves it alone. */
  lemma StoreSpares(f: seq<Block>, cross: set<nat>, pinned: set<nat>, lastUses: seq<map<nat, nat>>,
                    offsets: map<nat, nat>, cells: map<nat, Cell>, base: nat, off: nat, e: Store, b: nat, i: nat,
                    t: Token, mem: Memory)
    requires DistinctIds(f) && Laid(f, cross, pinned, lastUses, offsets, cells, base, off)
    requires Stores(f, offsets, [e]) && SlotHolds(f, offsets, b, i, t, mem) && (e.b != b || e.i != i)
    requires Dedicated(f[b].values[i], cross, pinned) || Dedicated(f[[e][0].b].values[[e][0].i], cross, pinned)
    ensures SlotHolds(f, offsets, b, i, t, StoreTo(f, offsets, e, mem))
  {
    assert [e][0] == e;
    var v, w := f[b].values[i], f[e.b].values[e.i];
    if Dedicated(v, cross, pinned) {
      DedicatedApart(f, cross, pinned, lastUses, offsets, cells, base, off, b, i, e.b, e.i);
    } else {
      DedicatedApart(f, cross, pinned, lastUses, offsets, cells, base, off, e.b, e.i, b, i);
    }
    WriteSpares(mem, offsets[v.id], SlotSize(v.typ), t, offsets[w.id], SlotSize(w.typ), Token(w.id, e.stamp));
  }

  /** The slot of a dedicated value always holds what was last stored to it, over every run. */
  lemma {:induction false} DedicatedHolds(f: seq<Block>, cross: set<nat>, pinned: set<nat>,
                                          lastUses: seq<map<nat, nat>>, offsets: map<nat, nat>, cells: map<nat, Cell>,
                                          base: nat, off: nat, es: seq<Store>, x: nat, mem: Memory)
    requires DistinctIds(f) && Laid(f, cross, pinned, lastUses, offsets, cells, base, off)
             && Stores(f, offsets, es) && x < |es|
    requires Dedicated(f[es[x].b].values[es[x].i], cross, pinned)
    requires forall y :: x < y < |es| ==> es[y].b != es[x].b || es[y].i != es[x].i
    ensures SlotHolds(f, offsets, es[x].b, es[x].i, Token(f[es[x].b].values[es[x].i].id, es[x].stamp),
                      RunStores(f, offsets, es, mem))
    decreases |es|
  {
    var n := |es| - 1;
    if x < n {
      DedicatedHolds(f, cross, pinned, lastUses, offsets, cells, base, off, es[..n], x, mem);
      StoreSpares(f, cross, pinned, lastUses, offsets, cells, base, off, es[n], es[x].b, es[x].i,
                  Token(f[es[x].b].values[es[x].i].id, es[x].stamp), RunStores(f, offsets, es[..n], mem));
    }
  }

  /** Stores to dedicated slots, such as the phi copies at the end of a block, leave a shared slot alone. */
  lemma {:induction false} CopiesSpareShared(f: seq<Block>, cross: set<nat>, pinned: set<nat>,
                                             lastUses: seq<map<nat, nat>>, offsets: map<nat, nat>,
                                             cells: map<nat, Cell>, base: nat, off: nat, es: seq<Store>, b: nat, j: nat,
                                             t: Token, mem: Memory)
    requires DistinctIds(f) && Laid(f, cross, pinned, lastUses, offsets, cells, base, off) && Stores(f, offsets, es)
    requires forall y ::
               0 <= y < |es| ==> Dedicated(f[es[y].b].values[es[y].i], cross, pinned) && (es[y].b != b || es[y].i != j)
    requires SlotHolds(f, offsets, b, j, t, mem)
    ensures SlotHolds(f, offsets, b, j, t, RunStores(f, offsets, es, mem))
    decreases |es|
  {
    if es != [] {
      var n := |es| - 1;
      CopiesSpareShared(f, cross, pinned, lastUses, offsets, cells, base, off, es[..n], b, j, t, mem);
      StoreSpares(f, cross, pinned, lastUses, offsets, cells, base, off, es[n], b, j, t,
                  RunStores(f, offsets, es[..n], mem));
    }
  }
}
