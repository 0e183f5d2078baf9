/** Slots that values share without conflict. */
module SlotAlloc {
  import opened Basics
  import opened Frame
  import opened SlotReuse

  datatype Key = Key(size: nat, align: nat)

  datatype Active = Active(vid: nat, expiresAt: nat, key: Key, offset: nat)

  /** A piece of frame handed out: its shape, and whether one value has it for good. */
  datatype Cell = Cell(key: Key, dedicated: bool)

  /** Does the value share its slot with nobody? */
  predicate Dedicated(v: Value, cross: set<nat>, pinned: set<nat>) {
    v.id in cross || !v.reusable || SlotSize(v.typ) >= 8 || v.id in pinned
  }

  function KeyOf(v: Value): Key {
    Key(SlotSize(v.typ), SlotAlign(v.typ))
  }

  function Free(pool: map<Key, seq<nat>>, k: Key): seq<nat> {
    if k in pool then pool[k] else []
  }

  // ----- the state of the frame -----

  /** No two cells overlap; all are aligned and end below `off`. */
  ghost predicate CellsOk(cells: map<nat, Cell>, base: nat, off: nat) {
    && (forall o :: o in cells ==>
          base <= o && cells[o].key.size > 0 && o + cells[o].key.size <= off && Aligned(o, cells[o].key.align))
    && (forall o, p :: o in cells && p in cells && o != p ==> Apart(o, cells[o].key.size, p, cells[p].key.size))
  }

  /** Free offsets are shared cells of their key, each listed once. */
  ghost predicate FreeOk(cells: map<nat, Cell>, pool: map<Key, seq<nat>>) {
    && (forall k, i ::
          0 <= i < |Free(pool, k)| ==> Free(pool, k)[i] in cells && cells[Free(pool, k)[i]] == Cell(k, false))
    && (forall k, i, j :: 0 <= i < j < |Free(pool, k)| ==> Free(pool, k)[i] != Free(pool, k)[j])
  }

  /** Active slots are shared cells, distinct, and not free. */
  ghost predicate ActiveOk(cells: map<nat, Cell>, pool: map<Key, seq<nat>>, active: seq<Active>) {
    && (forall i :: 0 <= i < |active| ==> ActiveCell(cells, pool, active[i]))
    && (forall i, j :: 0 <= i < j < |active| ==> active[i].offset != active[j].offset)
  }

  ghost predicate ActiveCell(cells: map<nat, Cell>, pool: map<Key, seq<nat>>, e: Active) {
    e.offset in cells && cells[e.offset] == Cell(e.key, false) && e.offset !in Free(pool, e.key)
  }

  /** A cell not in use by anybody at the moment. */
  ghost predicate Unused(cells: map<nat, Cell>, pool: map<Key, seq<nat>>, active: seq<Active>, k: Key, o: nat) {
    && o in cells && cells[o] == Cell(k, false) && o !in Free(pool, k)
    && forall i :: 0 <= i < |active| ==> active[i].offset != o
  }

  /** Handing a cell back. */
  lemma FreeGrows(cells: map<nat, Cell>, pool: map<Key, seq<nat>>, active: seq<Active>, k: Key, o: nat)
    requires FreeOk(cells, pool) && ActiveOk(cells, pool, active) && Unused(cells, pool, active, k, o)
    ensures FreeOk(cells, pool[k := Free(pool, k) + [o]]) && ActiveOk(cells, pool[k := Free(pool, k) + [o]], active)
  {
    var p := pool[k := Free(pool, k) + [o]];
    assert Free(p, k) == Free(pool, k) + [o] && forall l :: l != k ==> Free(p, l) == Free(pool, l);
    forall i | 0 <= i < |active|
      ensures ActiveCell(cells, p, active[i])
    {
      assert ActiveCell(cells, pool, active[i]);
    }
  }

  /** Taking the last free cell of a key. */
  lemma FreeShrinks(cells: map<nat, Cell>, pool: map<Key, seq<nat>>, active: seq<Active>, k: Key)
    requires FreeOk(cells, pool) && ActiveOk(cells, pool, active) && Free(pool, k) != []
    ensures var n := |Free(pool, k)| - 1;
            var p, o := pool[k := Free(pool, k)[..n]], Free(pool, k)[n];
            FreeOk(cells, p) && ActiveOk(cells, p, active) && Unused(cells, p, active, k, o)
  {
    var n := |Free(pool, k)| - 1;
    var p, o := pool[k := Free(pool, k)[..n]], Free(pool, k)[n];
    assert Free(p, k) == Free(pool, k)[..n] && forall l :: l != k ==> Free(p, l) == Free(pool, l);
    forall i | 0 <= i < |active|
      ensures ActiveCell(cells, p, active[i]) && active[i].offset != o
    {
      assert ActiveCell(cells, pool, active[i]);
      assert o in Free(pool, k);
    }
  }

  /** A fresh cell. */
  lemma CellGrows(cells: map<nat, Cell>, pool: map<Key, seq<nat>>, active: seq<Active>, base: nat, off: nat, o: nat,
                  c: Cell)
    requires CellsOk(cells, base, off) && FreeOk(cells, pool) && ActiveOk(cells, pool, active)
             && base <= off <= o && c.key.size > 0
    requires Aligned(o, c.key.align)
    ensures o !in cells && CellsOk(cells[o := c], base, o + c.key.size)
    ensures FreeOk(cells[o := c], pool) && ActiveOk(cells[o := c], pool, active)
    ensures forall k :: o !in Free(pool, k)
    ensures forall i :: 0 <= i < |active| ==> active[i].offset != o
  {
    forall i | 0 <= i < |active|
      ensures ActiveCell(cells[o := c], pool, active[i]) && active[i].offset != o
    {
      assert ActiveCell(cells, pool, active[i]);
    }
  }

  /** An unused cell becomes active. */
  lemma ActiveGrows(cells: map<nat, Cell>, pool: map<Key, seq<nat>>, active: seq<Active>, e: Active)
    requires ActiveOk(cells, pool, active) && Unused(cells, pool, active, e.key, e.offset)
    ensures ActiveOk(cells, pool, active + [e])
  {
  }

  // ----- who has which cell -----

  /** Every placed value has a cell of its shape, dedicated or not as it needs. */
  ghost predicate OwnedAt(cells: map<nat, Cell>, offsets: map<nat, nat>, v: Value, cross: set<nat>, pinned: set<nat>) {
    v.id in offsets ==> offsets[v.id] in cells && cells[offsets[v.id]] == Cell(KeyOf(v), Dedicated(v, cross, pinned))
  }

  ghost predicate Owned(f: seq<Block>, cells: map<nat, Cell>, offsets: map<nat, nat>, cross: set<nat>,
                        pinned: set<nat>) {
    forall b, i :: 0 <= b < |f| && 0 <= i < |f[b].values| ==> OwnedAt(cells, offsets, f[b].values[i], cross, pinned)
  }

  /** A dedicated value is alone in its cell. */
  ghost predicate Alone(f: seq<Block>, offsets: map<nat, nat>, cross: set<nat>, pinned: set<nat>) {
    forall b, i, id ::
      0 <= b < |f| && 0 <= i < |f[b].values| && Dedicated(f[b].values[i], cross, pinned) && id != f[b].values[i].id
      && f[b].values[i].id in offsets && id in offsets ==>
        offsets[id] != offsets[f[b].values[i].id]
  }

  predicate Local(v: Value, cross: set<nat>, pinned: set<nat>) {
    SlotSize(v.typ) > 0 && !Dedicated(v, cross, pinned)
  }

  /** The position up to which the slot of the value at `j` is spoken for. */
  function End(lastUse: map<nat, nat>, v: Value, j: nat): nat {
    if LastOf(lastUse, v.id) < j then j else LastOf(lastUse, v.id)
  }

  /** Shared values before `i` that are still to be read at `i` or later are active. */
  ghost predicate Live(blk: Block, i: nat, lastUse: map<nat, nat>, cross: set<nat>, pinned: set<nat>,
                       offsets: map<nat, nat>, active: seq<Active>)
    requires i <= |blk.values|
  {
    forall j :: 0 <= j < i && Local(blk.values[j], cross, pinned) && End(lastUse, blk.values[j], j) >= i ==>
      IsActive(blk.values[j], lastUse, offsets, active)
  }

  ghost predicate IsActive(v: Value, lastUse: map<nat, nat>, offsets: map<nat, nat>, active: seq<Active>) {
    v.id in offsets
      && exists x ::
           0 <= x < |active| && active[x].offset == offsets[v.id] && active[x].expiresAt == LastOf(lastUse, v.id)
  }

  /** Shared values of the block whose lifetimes meet have different slots. */
  ghost predicate NoClash(blk: Block, i: nat, lastUse: map<nat, nat>, cross: set<nat>, pinned: set<nat>,
                          offsets: map<nat, nat>)
    requires i <= |blk.values|
  {
    forall j, k ::
      0 <= j < k < i && Local(blk.values[j], cross, pinned) && Local(blk.values[k], cross, pinned)
        && End(lastUse, blk.values[j], j) >= k ==>
        Differ(offsets, blk.values[j].id, blk.values[k].id)
  }

  predicate Differ(offsets: map<nat, nat>, x: nat, y: nat) {
    x in offsets && y in offsets && offsets[x] != offsets[y]
  }

  /** Every value of the first positions that needs a slot has one. */
  ghost predicate PlacedUpTo(blk: Block, i: nat, offsets: map<nat, nat>)
    requires i <= |blk.values|
  {
    forall j :: 0 <= j < i && SlotSize(blk.values[j].typ) > 0 ==> blk.values[j].id in offsets
  }

  /** Values from position `i` of block `b` on have no slot yet. */
  ghost predicate Ahead(f: seq<Block>, offsets: map<nat, nat>, b: nat, i: nat) {
    forall c, j ::
      0 <= c < |f| && 0 <= j < |f[c].values| && (c > b || (c == b && j >= i)) ==> f[c].values[j].id !in offsets
  }

  /** Every value placed so far has a cell. */
  ghost predicate AllPlaced(cells: map<nat, Cell>, offsets: map<nat, nat>) {
    forall id :: id in offsets ==> offsets[id] in cells
  }

  lemma AheadStep(f: seq<Block>, offsets: map<nat, nat>, b: nat, i: nat, o: nat)
    requires DistinctIds(f) && b < |f| && i < |f[b].values| && Ahead(f, offsets, b, i)
    ensures Ahead(f, offsets, b, i + 1) && Ahead(f, offsets[f[b].values[i].id := o], b, i + 1)
  {
  }

  /** One more value in a cell of its own shape that nobody else is using. */
  lemma OwnedGrows(f: seq<Block>, cells: map<nat, Cell>, offsets: map<nat, nat>, cross: set<nat>, pinned: set<nat>,
                   b: nat, i: nat, o: nat)
    requires DistinctIds(f) && b < |f| && i < |f[b].values| && f[b].values[i].id !in offsets
    requires Owned(f, cells, offsets, cross, pinned) && Alone(f, offsets, cross, pinned)
    requires o in cells && cells[o] == Cell(KeyOf(f[b].values[i]), Dedicated(f[b].values[i], cross, pinned))
    requires Dedicated(f[b].values[i], cross, pinned) ==> forall id :: id in offsets ==> offsets[id] != o
    ensures Owned(f, cells, offsets[f[b].values[i].id := o], cross, pinned)
    ensures Alone(f, offsets[f[b].values[i].id := o], cross, pinned)
  {
    var v := f[b].values[i];
    var offsets' := offsets[v.id := o];
    forall c, j | 0 <= c < |f| && 0 <= j < |f[c].values|
      ensures OwnedAt(cells, offsets', f[c].values[j], cross, pinned)
    {
      assert OwnedAt(cells, offsets, f[c].values[j], cross, pinned);
    }
    forall c, j, id |
      0 <= c < |f| && 0 <= j < |f[c].values| && Dedicated(f[c].values[j], cross, pinned) && id != f[c].values[j].id
                      && f[c].values[j].id in offsets' && id in offsets'
      ensures offsets'[id] != offsets'[f[c].values[j].id]
    {
      assert OwnedAt(cells, offsets, f[c].values[j], cross, pinned);
    }
  }

  lemma OwnedWider(f: seq<Block>, cells: map<nat, Cell>, offsets: map<nat, nat>, cross: set<nat>, pinned: set<nat>,
                   o: nat, c: Cell)
    requires Owned(f, cells, offsets, cross, pinned) && o !in cells
    ensures Owned(f, cells[o := c], offsets, cross, pinned)
  {
    forall b, i | 0 <= b < |f| && 0 <= i < |f[b].values|
      ensures OwnedAt(cells[o := c], offsets, f[b].values[i], cross, pinned)
    {
      assert OwnedAt(cells, offsets, f[b].values[i], cross, pinned);
    }
  }

  /** The value at `i` takes a cell that no active value has. */
  lemma NoClashGrows(blk: Block, i: nat, lastUse: map<nat, nat>, cross: set<nat>, pinned: set<nat>,
                     offsets: map<nat, nat>, active: seq<Active>, o: nat)
    requires i < |blk.values| && forall j :: 0 <= j < i ==> blk.values[j].id != blk.values[i].id
    requires Live(blk, i, lastUse, cross, pinned, offsets, active) && NoClash(blk, i, lastUse, cross, pinned, offsets)
    requires Local(blk.values[i], cross, pinned) ==> forall x :: 0 <= x < |active| ==> active[x].offset != o
    ensures NoClash(blk, i + 1, lastUse, cross, pinned, offsets[blk.values[i].id := o])
  {
    var offsets' := offsets[blk.values[i].id := o];
    forall j, k | 0 <= j < k < i + 1 && Local(blk.values[j], cross, pinned) && Local(blk.values[k], cross, pinned)
                  && End(lastUse, blk.values[j], j) >= k
      ensures Differ(offsets', blk.values[j].id, blk.values[k].id)
    {
      if k == i {
        assert IsActive(blk.values[j], lastUse, offsets, active);
      } else {
        assert Differ(offsets, blk.values[j].id, blk.values[k].id);
      }
    }
  }

  /** Whatever is still to be read after `i` stays active. */
  lemma LiveGrows(blk: Block, i: nat, lastUse: map<nat, nat>, cross: set<nat>, pinned: set<nat>, offsets: map<nat, nat>,
                  active: seq<Active>, o: nat, active': seq<Active>)
    requires i < |blk.values| && forall j :: 0 <= j < i ==> blk.values[j].id != blk.values[i].id
    requires Live(blk, i, lastUse, cross, pinned, offsets, active) && active <= active'
    requires Local(blk.values[i], cross, pinned) && LastOf(lastUse, blk.values[i].id) > i ==>
               exists x ::
                 0 <= x < |active'| && active'[x].offset == o
                   && active'[x].expiresAt == LastOf(lastUse, blk.values[i].id)
    ensures Live(blk, i + 1, lastUse, cross, pinned, offsets[blk.values[i].id := o], active')
  {
    var offsets' := offsets[blk.values[i].id := o];
    forall j | 0 <= j < i + 1 && Local(blk.values[j], cross, pinned) && End(lastUse, blk.values[j], j) >= i + 1
      ensures IsActive(blk.values[j], lastUse, offsets', active')
    {
      if j < i {
        assert IsActive(blk.values[j], lastUse, offsets, active);
        var x :| 0 <= x < |active| && active[x].offset == offsets[blk.values[j].id]
          && active[x].expiresAt == LastOf(lastUse, blk.values[j].id);
        assert active'[x] == active[x];
      }
    }
  }

  lemma LiveKept(blk: Block, i: nat, lastUse: map<nat, nat>, cross: set<nat>, pinned: set<nat>, offsets: map<nat, nat>,
                 active: seq<Active>, active': seq<Active>)
    requires i <= |blk.values| && Live(blk, i, lastUse, cross, pinned, offsets, active)
    requires forall x :: 0 <= x < |active| && active[x].expiresAt >= i ==> active[x] in active'
    ensures Live(blk, i, lastUse, cross, pinned, offsets, active')
  {
    forall j | 0 <= j < i && Local(blk.values[j], cross, pinned) && End(lastUse, blk.values[j], j) >= i
      ensures IsActive(blk.values[j], lastUse, offsets, active')
    {
      var v := blk.values[j];
      assert IsActive(v, lastUse, offsets, active);
      var x :| 0 <= x < |active| && active[x].offset == offsets[v.id] && active[x].expiresAt == LastOf(lastUse, v.id);
      assert active[x] in active';
    }
  }

  /** `more` places the same values as `offsets`, and maybe others. */
  predicate Extends(offsets: map<nat, nat>, more: map<nat, nat>) {
    forall id :: id in offsets ==> id in more && more[id] == offsets[id]
  }

  lemma NoClashStays(blk: Block, i: nat, lastUse: map<nat, nat>, cross: set<nat>, pinned: set<nat>,
                     offsets: map<nat, nat>, more: map<nat, nat>)
    requires i <= |blk.values| && NoClash(blk, i, lastUse, cross, pinned, offsets) && Extends(offsets, more)
    ensures NoClash(blk, i, lastUse, cross, pinned, more)
  {
    forall j, k | 0 <= j < k < i && Local(blk.values[j], cross, pinned) && Local(blk.values[k], cross, pinned)
                  && End(lastUse, blk.values[j], j) >= k
      ensures Differ(more, blk.values[j].id, blk.values[k].id)
    {
      assert Differ(offsets, blk.values[j].id, blk.values[k].id);
    }
  }

  /** The values of block `b` before position `i` are placed without conflict. */
  ghost predicate Placing(f: seq<Block>, b: nat, i: nat, lastUse: map<nat, nat>, cross: set<nat>, pinned: set<nat>,
                          offsets: map<nat, nat>, active: seq<Active>, cells: map<nat, Cell>) {
    && DistinctIds(f) && b < |f| && i <= |f[b].values|
    && Owned(f, cells, offsets, cross, pinned) && Alone(f, offsets, cross, pinned) && Ahead(f, offsets, b, i)
    && Live(f[b], i, lastUse, cross, pinned, offsets, active)
    && NoClash(f[b], i, lastUse, cross, pinned, offsets)
    && PlacedUpTo(f[b], i, offsets)
  }

  /** Placing one more value. */
  lemma PlacingStep(f: seq<Block>, b: nat, i: nat, lastUse: map<nat, nat>, cross: set<nat>, pinned: set<nat>,
                    offsets: map<nat, nat>, active: seq<Active>, cells: map<nat, Cell>, o: nat, active': seq<Active>)
    requires Placing(f, b, i, lastUse, cross, pinned, offsets, active, cells) && i < |f[b].values| && active <= active'
    requires o in cells && cells[o] == Cell(KeyOf(f[b].values[i]), Dedicated(f[b].values[i], cross, pinned))
    requires if Dedicated(f[b].values[i], cross, pinned) then forall id :: id in offsets ==> offsets[id] != o
             else forall x :: 0 <= x < |active| ==> active[x].offset != o
    requires Local(f[b].values[i], cross, pinned) && LastOf(lastUse, f[b].values[i].id) > i ==>
               exists x ::
                 0 <= x < |active'| && active'[x].offset == o
                   && active'[x].expiresAt == LastOf(lastUse, f[b].values[i].id)
    ensures Placing(f, b, i + 1, lastUse, cross, pinned, offsets[f[b].values[i].id := o], active', cells)
    ensures Extends(offsets, offsets[f[b].values[i].id := o])
  {
    AheadStep(f, offsets, b, i, o);
    OwnedGrows(f, cells, offsets, cross, pinned, b, i, o);
    NoClashGrows(f[b], i, lastUse, cross, pinned, offsets, active, o);
    LiveGrows(f[b], i, lastUse, cross, pinned, offsets, active, o, active');
  }

  /** A value without a slot. */
  lemma PlacingSkip(f: seq<Block>, b: nat, i: nat, lastUse: map<nat, nat>, cross: set<nat>, pinned: set<nat>,
                    offsets: map<nat, nat>, active: seq<Active>, cells: map<nat, Cell>)
    requires Placing(f, b, i, lastUse, cross, pinned, offsets, active, cells) && i < |f[b].values|
             && SlotSize(f[b].values[i].typ) == 0
    ensures Placing(f, b, i + 1, lastUse, cross, pinned, offsets, active, cells)
  {
    AheadStep(f, offsets, b, i, 0);
    forall j | 0 <= j < i + 1 && Local(f[b].values[j], cross, pinned) && End(lastUse, f[b].values[j], j) >= i + 1
      ensures IsActive(f[b].values[j], lastUse, offsets, active)
    {
      assert j < i;
    }
  }

  /** The block is placed: all its values, by recorded lifetimes, without a clash. */
  ghost predicate BlockDone(blk: Block, lastUse: map<nat, nat>, cross: set<nat>, pinned: set<nat>,
                            offsets: map<nat, nat>) {
    && Covers(blk, cross, lastUse, |blk.values| + 1) && Tight(blk, lastUse)
    && PlacedUpTo(blk, |blk.values|, offsets) && NoClash(blk, |blk.values|, lastUse, cross, pinned, offsets)
  }

  ghost predicate BlocksDone(f: seq<Block>, lastUses: seq<map<nat, nat>>, cross: set<nat>, pinned: set<nat>,
                             offsets: map<nat, nat>) {
    |lastUses| <= |f| && forall b :: 0 <= b < |lastUses| ==> BlockDone(f[b], lastUses[b], cross, pinned, offsets)
  }

  lemma BlocksStay(f: seq<Block>, lastUses: seq<map<nat, nat>>, cross: set<nat>, pinned: set<nat>,
                   offsets: map<nat, nat>, more: map<nat, nat>)
    requires BlocksDone(f, lastUses, cross, pinned, offsets) && Extends(offsets, more)
    ensures BlocksDone(f, lastUses, cross, pinned, more)
  {
    forall b | 0 <= b < |lastUses|
      ensures BlockDone(f[b], lastUses[b], cross, pinned, more)
    {
      assert BlockDone(f[b], lastUses[b], cross, pinned, offsets);
      NoClashStays(f[b], |f[b].values|, lastUses[b], cross, pinned, offsets, more);
    }
  }

  /** The finished layout. */
  ghost predicate Laid(f: seq<Block>, cross: set<nat>, pinned: set<nat>, lastUses: seq<map<nat, nat>>,
                       offsets: map<nat, nat>, cells: map<nat, Cell>, base: nat, off: nat) {
    && CellsOk(cells, base, off) && Owned(f, cells, offsets, cross, pinned) && Alone(f, offsets, cross, pinned)
    && |lastUses| == |f| && BlocksDone(f, lastUses, cross, pinned, offsets)
  }

  /** Taking an entry off the active list. */
  lemma DropActive(cells: map<nat, Cell>, pool: map<Key, seq<nat>>, keep: seq<Active>, e: Active, rest: seq<Active>)
    requires ActiveOk(cells, pool, keep + ([e] + rest))
    ensures ActiveOk(cells, pool, keep + rest) && Unused(cells, pool, keep + rest, e.key, e.offset)
  {
    var all := keep + ([e] + rest);
    assert all[|keep|] == e && ActiveCell(cells, pool, all[|keep|]);
    forall i | 0 <= i < |keep + rest|
      ensures ActiveCell(cells, pool, (keep + rest)[i]) && (keep + rest)[i].offset != e.offset
    {
      var x := if i < |keep| then i else i + 1;
      assert all[x] == (keep + rest)[i] && ActiveCell(cells, pool, all[x]);
    }
    forall i, j | 0 <= i < j < |keep + rest|
      ensures (keep + rest)[i].offset != (keep + rest)[j].offset
    {
      var x, y := if i < |keep| then i else i + 1, if j < |keep| then j else j + 1;
      assert all[x] == (keep + rest)[i] && all[y] == (keep + rest)[j];
    }
  }
}
