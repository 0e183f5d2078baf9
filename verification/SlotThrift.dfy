/** Slots are reused whenever they can be, and the frame has no gaps. */
module SlotThrift {
  import opened Basics
  import opened Frame
  import opened SlotReuse
  import opened SlotAlloc

  /** The frame while values are being placed. */
  datatype Layout = Layout(off: nat, offsets: map<nat, nat>, pool: map<Key, seq<nat>>, active: seq<Active>,
                           cells: map<nat, Cell>)

  /** Position `i` of block `b` is next, with what is known of the function. */
  datatype Spot = Spot(f: seq<Block>, b: nat, i: nat, lastUse: map<nat, nat>, cross: set<nat>, pinned: set<nat>)

  // ----- no gaps -----

  ghost predicate EndsAt(cells: map<nat, Cell>, e: nat) {
    exists p :: p in cells && p + cells[p].key.size == e
  }

  /** The cell at `o` begins at the first aligned offset behind the callee area or behind another cell. */
  ghost predicate FitsBehind(cells: map<nat, Cell>, base: nat, o: nat, c: Cell) {
    IsAlign(c.key.align) && exists e: nat :: (e == base || EndsAt(cells, e)) && AlignUp(e, c.key.align) == o
  }

  /** So does every cell, and the frame ends with one. */
  ghost predicate Snug(cells: map<nat, Cell>, base: nat, off: nat) {
    && (off == base || EndsAt(cells, off))
    && (forall o :: o in cells ==> FitsBehind(cells, base, o, cells[o]))
  }

  lemma EndsStay(cells: map<nat, Cell>, o: nat, c: Cell, e: nat)
    requires EndsAt(cells, e) && o !in cells
    ensures EndsAt(cells[o := c], e)
  {
    var p :| p in cells && p + cells[p].key.size == e;
    assert cells[o := c][p] == cells[p];
  }

  lemma FitsStay(cells: map<nat, Cell>, base: nat, o: nat, c: Cell, p: nat, d: Cell)
    requires FitsBehind(cells, base, p, d) && o !in cells
    ensures FitsBehind(cells[o := c], base, p, d)
  {
    var e: nat :| (e == base || EndsAt(cells, e)) && AlignUp(e, d.key.align) == p;
    if e != base {
      EndsStay(cells, o, c, e);
    }
  }

  lemma SnugGrows(cells: map<nat, Cell>, base: nat, off: nat, o: nat, c: Cell)
    requires Snug(cells, base, off) && o !in cells && IsAlign(c.key.align) && o == AlignUp(off, c.key.align)
    ensures Snug(cells[o := c], base, o + c.key.size)
  {
    var more := cells[o := c];
    assert more[o] == c && EndsAt(more, o + c.key.size);
    assert FitsBehind(cells, base, o, c);
    forall p | p in more
      ensures FitsBehind(more, base, p, more[p])
    {
      FitsStay(cells, base, o, c, p, more[p]);
    }
  }

  // ----- reuse -----

  predicate Before(c: nat, j: nat, b: nat, i: nat) {
    c < b || (c == b && j < i)
  }

  /** A shared value before position `i` of block `b`. */
  ghost predicate SharedBefore(f: seq<Block>, cross: set<nat>, pinned: set<nat>, b: nat, i: nat, c: nat, j: nat) {
    c < |f| && j < |f[c].values| && Before(c, j, b, i) && Local(f[c].values[j], cross, pinned)
  }

  /** No shared value before position `i` of block `b` has slot `o`. */
  ghost predicate FirstHolder(f: seq<Block>, cross: set<nat>, pinned: set<nat>, offsets: map<nat, nat>, b: nat, i: nat,
                              o: nat) {
    forall c: nat, j: nat :: SharedBefore(f, cross, pinned, b, i, c, j) && f[c].values[j].id in offsets ==>
                     offsets[f[c].values[j].id] != o
  }

  /** A shared value before `i` has slot `o` and is read at `i` or later. */
  ghost predicate StillRead(blk: Block, i: nat, lastUse: map<nat, nat>, cross: set<nat>, pinned: set<nat>,
                            offsets: map<nat, nat>, o: nat) {
    exists j :: 0 <= j < i && j < |blk.values| && HasUntil(blk.values[j], i, lastUse, cross, pinned, offsets, o)
  }

  ghost predicate HasUntil(v: Value, i: nat, lastUse: map<nat, nat>, cross: set<nat>, pinned: set<nat>,
                           offsets: map<nat, nat>, o: nat) {
    Local(v, cross, pinned) && v.id in offsets && offsets[v.id] == o && LastOf(lastUse, v.id) >= i
  }

  /** If the value at position `i` of block `b` is the first to hold its slot, all slots of its shape that there were
      before were still to be read. */
  ghost predicate ThriftyAt(f: seq<Block>, b: nat, i: nat, lastUse: map<nat, nat>, cross: set<nat>, pinned: set<nat>,
                            offsets: map<nat, nat>)
    requires b < |f| && i < |f[b].values|
  {
    var v := f[b].values[i];
    Local(v, cross, pinned) && v.id in offsets && FirstHolder(f, cross, pinned, offsets, b, i, offsets[v.id]) ==>
      forall c: nat, j: nat ::
        SharedBefore(f, cross, pinned, b, i, c, j) && KeyOf(f[c].values[j]) == KeyOf(v)
        && f[c].values[j].id in offsets ==>
          StillRead(f[b], i, lastUse, cross, pinned, offsets, offsets[f[c].values[j].id])
  }

  /** So it is for all values of the first blocks. */
  ghost predicate Thrifty(f: seq<Block>, lastUses: seq<map<nat, nat>>, cross: set<nat>, pinned: set<nat>,
                          offsets: map<nat, nat>) {
    |lastUses| <= |f|
    && forall b, i {:trigger ThriftyAt(f, b, i, lastUses[b], cross, pinned, offsets)} ::
         0 <= b < |lastUses| && 0 <= i < |f[b].values| ==> ThriftyAt(f, b, i, lastUses[b], cross, pinned, offsets)
  }

  ghost predicate ThriftyUpTo(f: seq<Block>, b: nat, n: nat, lastUse: map<nat, nat>, cross: set<nat>, pinned: set<nat>,
                              offsets: map<nat, nat>)
    requires b < |f|
  {
    forall i {:trigger ThriftyAt(f, b, i, lastUse, cross, pinned, offsets)} ::
      0 <= i < n && i < |f[b].values| ==> ThriftyAt(f, b, i, lastUse, cross, pinned, offsets)
  }

  // ----- what is known between two values -----

  /** A shared cell is free or active. */
  ghost predicate FreeOrActive(st: Layout, o: nat)
    requires o in st.cells
  {
    o in Free(st.pool, st.cells[o].key) || exists x :: 0 <= x < |st.active| && st.active[x].offset == o
  }

  /** All shared cells, but for `but`. */
  ghost predicate NoneLost(st: Layout, but: Option<nat>) {
    forall o {:trigger FreeOrActive(st, o)} ::
      o in st.cells && !st.cells[o].dedicated && but != Some(o) ==> FreeOrActive(st, o)
  }

  /** An active slot is held by an earlier shared value of the block, until its last read. */
  ghost predicate HeldHere(s: Spot, offsets: map<nat, nat>, e: Active)
    requires s.b < |s.f|
  {
    exists j :: 0 <= j < s.i && j < |s.f[s.b].values| && Holds(s, s.f[s.b].values[j], offsets, e)
  }

  ghost predicate Holds(s: Spot, v: Value, offsets: map<nat, nat>, e: Active) {
    Local(v, s.cross, s.pinned) && v.id in offsets && offsets[v.id] == e.offset
      && LastOf(s.lastUse, v.id) == e.expiresAt
  }

  /** Every cell was handed to some value. */
  ghost predicate HandedOut(s: Spot, offsets: map<nat, nat>, o: nat) {
    exists c: nat, j: nat :: c < |s.f| && j < |s.f[c].values| && Before(c, j, s.b, s.i)
                   && s.f[c].values[j].id in offsets && offsets[s.f[c].values[j].id] == o
  }

  ghost predicate Given(s: Spot, offsets: map<nat, nat>) {
    forall c: nat, j: nat ::
      0 <= c < |s.f| && 0 <= j < |s.f[c].values| && Before(c, j, s.b, s.i)
      && SlotSize(s.f[c].values[j].typ) > 0 ==>
        s.f[c].values[j].id in offsets
  }

  /** The holders, by name. */
  datatype Fact = Holders | Cells | Values

  ghost predicate Known(s: Spot, st: Layout, fact: Fact)
    requires s.b < |s.f|
  {
    match fact
    case Holders => forall x :: 0 <= x < |st.active| ==> HeldHere(s, st.offsets, st.active[x])
    case Cells => forall o :: o in st.cells ==> HandedOut(s, st.offsets, o)
    case Values => Given(s, st.offsets)
  }

  ghost predicate AllKnown(s: Spot, st: Layout) {
    s.b < |s.f| && forall fact {:trigger Known(s, st, fact)} :: Known(s, st, fact)
  }

  // ----- steps -----

  /** The value at the spot gets slot `o`; what was held is still held. */
  lemma KnownNext(s: Spot, st: Layout, o: nat, st': Layout)
    requires AllKnown(s, st) && s.i < |s.f[s.b].values| && DistinctIds(s.f) && Ahead(s.f, st.offsets, s.b, s.i)
    requires st'.offsets == st.offsets[s.f[s.b].values[s.i].id := o]
    requires forall p :: p in st'.cells ==> p in st.cells || p == o
    requires forall x :: 0 <= x < |st'.active| ==>
               st'.active[x] in st.active || Holds(s, s.f[s.b].values[s.i], st'.offsets, st'.active[x])
    ensures AllKnown(s.(i := s.i + 1), st')
  {
    var t := s.(i := s.i + 1);
    var v := s.f[s.b].values[s.i];
    assert Known(s, st, Holders) && Known(s, st, Cells) && Known(s, st, Values);
    forall x | 0 <= x < |st'.active|
      ensures HeldHere(t, st'.offsets, st'.active[x])
    {
      HeldOn(s, st, st', x);
    }
    forall p | p in st'.cells
      ensures HandedOut(t, st'.offsets, p)
    {
      HandedOn(s, st, o, st', p);
    }
    forall fact
      ensures Known(t, st', fact)
    {
    }
  }

  lemma HeldOn(s: Spot, st: Layout, st': Layout, x: nat)
    requires s.b < |s.f| && s.i < |s.f[s.b].values| && DistinctIds(s.f) && Known(s, st, Holders) && x < |st'.active|
    requires st'.offsets.Keys == st.offsets.Keys + {s.f[s.b].values[s.i].id}
    requires forall id :: id in st.offsets && id != s.f[s.b].values[s.i].id ==> st'.offsets[id] == st.offsets[id]
    requires st'.active[x] in st.active || Holds(s, s.f[s.b].values[s.i], st'.offsets, st'.active[x])
    ensures HeldHere(s.(i := s.i + 1), st'.offsets, st'.active[x])
  {
    var e := st'.active[x];
    var t := s.(i := s.i + 1);
    if e in st.active {
      assert HeldHere(s, st.offsets, e);
      var j :| 0 <= j < s.i && j < |s.f[s.b].values| && Holds(s, s.f[s.b].values[j], st.offsets, e);
      assert Holds(t, t.f[t.b].values[j], st'.offsets, e);
    } else {
      assert Holds(t, t.f[t.b].values[s.i], st'.offsets, e);
    }
  }

  lemma HandedOn(s: Spot, st: Layout, o: nat, st': Layout, p: nat)
    requires s.b < |s.f| && s.i < |s.f[s.b].values| && DistinctIds(s.f) && Known(s, st, Cells)
    requires st'.offsets == st.offsets[s.f[s.b].values[s.i].id := o] && (p in st.cells || p == o)
    ensures HandedOut(s.(i := s.i + 1), st'.offsets, p)
  {
    if p == o {
      assert Before(s.b, s.i, s.b, s.i + 1);
    } else {
      assert HandedOut(s, st.offsets, p);
      var c: nat, j: nat :| c < |s.f| && j < |s.f[c].values| && Before(c, j, s.b, s.i)
        && s.f[c].values[j].id in st.offsets && st.offsets[s.f[c].values[j].id] == p;
      assert Before(c, j, s.b, s.i + 1) && s.f[c].values[j].id != s.f[s.b].values[s.i].id;
    }
  }

  /** The value at the spot gets no slot. */
  lemma KnownSkip(s: Spot, st: Layout)
    requires AllKnown(s, st) && s.i < |s.f[s.b].values| && SlotSize(s.f[s.b].values[s.i].typ) == 0
    ensures AllKnown(s.(i := s.i + 1), st)
  {
    var t := s.(i := s.i + 1);
    assert Known(s, st, Holders) && Known(s, st, Cells) && Known(s, st, Values);
    forall x | 0 <= x < |st.active|
      ensures HeldHere(t, st.offsets, st.active[x])
    {
      assert HeldHere(s, st.offsets, st.active[x]);
      var j :| 0 <= j < s.i && j < |s.f[s.b].values| && Holds(s, s.f[s.b].values[j], st.offsets, st.active[x]);
      assert Holds(t, t.f[t.b].values[j], st.offsets, st.active[x]);
    }
    forall p | p in st.cells
      ensures HandedOut(t, st.offsets, p)
    {
      assert HandedOut(s, st.offsets, p);
      var c: nat, j: nat :| c < |s.f| && j < |s.f[c].values| && Before(c, j, s.b, s.i)
        && s.f[c].values[j].id in st.offsets && st.offsets[s.f[c].values[j].id] == p;
      assert Before(c, j, t.b, t.i);
    }
    forall fact
      ensures Known(t, st, fact)
    {
    }
  }

  /** Fewer slots are active. */
  lemma KnownFewer(s: Spot, st: Layout, st': Layout)
    requires AllKnown(s, st) && st'.offsets == st.offsets && st'.cells == st.cells
    requires forall e :: e in st'.active ==> e in st.active
    ensures AllKnown(s, st')
  {
    assert Known(s, st, Holders) && Known(s, st, Cells) && Known(s, st, Values);
    forall x | 0 <= x < |st'.active|
      ensures HeldHere(s, st.offsets, st'.active[x])
    {
      assert st'.active[x] in st.active;
      var y :| 0 <= y < |st.active| && st.active[y] == st'.active[x];
    }
    forall fact
      ensures Known(s, st', fact)
    {
    }
  }

  /** The next block begins. */
  lemma KnownNextBlock(s: Spot, st: Layout, lastUse: map<nat, nat>)
    requires AllKnown(s, st) && s.b + 1 < |s.f| && s.i == |s.f[s.b].values| && st.active == []
    ensures AllKnown(s.(b := s.b + 1, i := 0, lastUse := lastUse), st)
  {
    var t := s.(b := s.b + 1, i := 0, lastUse := lastUse);
    assert Known(s, st, Cells) && Known(s, st, Values);
    forall p | p in st.cells
      ensures HandedOut(t, st.offsets, p)
    {
      assert HandedOut(s, st.offsets, p);
      var c: nat, j: nat :| c < |s.f| && j < |s.f[c].values| && Before(c, j, s.b, s.i)
        && s.f[c].values[j].id in st.offsets && st.offsets[s.f[c].values[j].id] == p;
      assert Before(c, j, t.b, t.i);
    }
    forall fact
      ensures Known(t, st, fact)
    {
    }
  }

  // ----- thrift -----

  /** A slot taken from the pool has been held before. */
  lemma FromPool(s: Spot, st: Layout, k: Key, o: nat)
    requires AllKnown(s, st) && Owned(s.f, st.cells, st.offsets, s.cross, s.pinned)
    requires o in st.cells && st.cells[o] == Cell(k, false) && k.size > 0
    ensures !FirstHolder(s.f, s.cross, s.pinned, st.offsets, s.b, s.i, o)
  {
    assert Known(s, st, Cells) && HandedOut(s, st.offsets, o);
    var c: nat, j: nat :| c < |s.f| && j < |s.f[c].values| && Before(c, j, s.b, s.i)
      && s.f[c].values[j].id in st.offsets && st.offsets[s.f[c].values[j].id] == o;
    assert OwnedAt(st.cells, st.offsets, s.f[c].values[j], s.cross, s.pinned);
    assert SharedBefore(s.f, s.cross, s.pinned, s.b, s.i, c, j);
  }

  /** With no free slot of the shape, all there are are still to be read. */
  lemma AllStillRead(s: Spot, st: Layout, k: Key)
    requires AllKnown(s, st) && Owned(s.f, st.cells, st.offsets, s.cross, s.pinned) && NoneLost(st, None)
    requires Free(st.pool, k) == [] && forall x :: 0 <= x < |st.active| ==> st.active[x].expiresAt >= s.i
    ensures forall c: nat, j: nat ::
              SharedBefore(s.f, s.cross, s.pinned, s.b, s.i, c, j) && KeyOf(s.f[c].values[j]) == k
              && s.f[c].values[j].id in st.offsets ==>
                StillRead(s.f[s.b], s.i, s.lastUse, s.cross, s.pinned, st.offsets, st.offsets[s.f[c].values[j].id])
  {
    forall c: nat, j: nat | SharedBefore(s.f, s.cross, s.pinned, s.b, s.i, c, j) && KeyOf(s.f[c].values[j]) == k
                  && s.f[c].values[j].id in st.offsets
      ensures StillRead(s.f[s.b], s.i, s.lastUse, s.cross, s.pinned, st.offsets, st.offsets[s.f[c].values[j].id])
    {
      var u := s.f[c].values[j];
      assert OwnedAt(st.cells, st.offsets, u, s.cross, s.pinned);
      assert FreeOrActive(st, st.offsets[u.id]);
      var x :| 0 <= x < |st.active| && st.active[x].offset == st.offsets[u.id];
      assert Known(s, st, Holders) && HeldHere(s, st.offsets, st.active[x]);
      var q :| 0 <= q < s.i && q < |s.f[s.b].values| && Holds(s, s.f[s.b].values[q], st.offsets, st.active[x]);
      assert HasUntil(s.f[s.b].values[q], s.i, s.lastUse, s.cross, s.pinned, st.offsets, st.offsets[u.id]);
    }
  }

  /** Placing the value at the spot, in a slot from the pool or a new one. */
  lemma ThriftyNow(s: Spot, st: Layout, o: nat)
    requires AllKnown(s, st) && Owned(s.f, st.cells, st.offsets, s.cross, s.pinned) && NoneLost(st, None)
    requires DistinctIds(s.f) && Ahead(s.f, st.offsets, s.b, s.i) && s.i < |s.f[s.b].values|
    requires Local(s.f[s.b].values[s.i], s.cross, s.pinned)
    requires forall x :: 0 <= x < |st.active| ==> st.active[x].expiresAt >= s.i
    requires if o in st.cells then st.cells[o] == Cell(KeyOf(s.f[s.b].values[s.i]), false)
             else Free(st.pool, KeyOf(s.f[s.b].values[s.i])) == []
    ensures ThriftyAt(s.f, s.b, s.i, s.lastUse, s.cross, s.pinned, st.offsets[s.f[s.b].values[s.i].id := o])
  {
    var v := s.f[s.b].values[s.i];
    var more := st.offsets[v.id := o];
    if o in st.cells {
      FromPool(s, st, KeyOf(v), o);
      NotFirst(s, st.offsets, o);
    } else {
      AllStillRead(s, st, KeyOf(v));
      ReadOn(s, st.offsets, o);
    }
  }

  lemma NotFirst(s: Spot, offsets: map<nat, nat>, o: nat)
    requires DistinctIds(s.f) && s.b < |s.f| && s.i < |s.f[s.b].values|
    requires !FirstHolder(s.f, s.cross, s.pinned, offsets, s.b, s.i, o)
    ensures !FirstHolder(s.f, s.cross, s.pinned, offsets[s.f[s.b].values[s.i].id := o], s.b, s.i, o)
  {
    var c: nat, j: nat :| SharedBefore(s.f, s.cross, s.pinned, s.b, s.i, c, j) && s.f[c].values[j].id in offsets
      && offsets[s.f[c].values[j].id] == o;
    assert s.f[c].values[j].id != s.f[s.b].values[s.i].id;
  }

  lemma ReadOn(s: Spot, offsets: map<nat, nat>, o: nat)
    requires DistinctIds(s.f) && s.b < |s.f| && s.i < |s.f[s.b].values|
    requires var k := KeyOf(s.f[s.b].values[s.i]);
             forall c: nat, j: nat ::
               SharedBefore(s.f, s.cross, s.pinned, s.b, s.i, c, j) && KeyOf(s.f[c].values[j]) == k
               && s.f[c].values[j].id in offsets ==>
                 StillRead(s.f[s.b], s.i, s.lastUse, s.cross, s.pinned, offsets, offsets[s.f[c].values[j].id])
    ensures ThriftyAt(s.f, s.b, s.i, s.lastUse, s.cross, s.pinned, offsets[s.f[s.b].values[s.i].id := o])
  {
    var v := s.f[s.b].values[s.i];
    var more := offsets[v.id := o];
    forall c: nat, j: nat | SharedBefore(s.f, s.cross, s.pinned, s.b, s.i, c, j) && KeyOf(s.f[c].values[j]) == KeyOf(v)
                  && s.f[c].values[j].id in more
      ensures StillRead(s.f[s.b], s.i, s.lastUse, s.cross, s.pinned, more, more[s.f[c].values[j].id])
    {
      var u := s.f[c].values[j];
      assert u.id != v.id;
      assert StillRead(s.f[s.b], s.i, s.lastUse, s.cross, s.pinned, offsets, offsets[u.id]);
      var q :| 0 <= q < s.i && q < |s.f[s.b].values|
        && HasUntil(s.f[s.b].values[q], s.i, s.lastUse, s.cross, s.pinned, offsets, offsets[u.id]);
      assert s.f[s.b].values[q].id != v.id;
      assert HasUntil(s.f[s.b].values[q], s.i, s.lastUse, s.cross, s.pinned, more, more[u.id]);
    }
  }

  /** Placing more values changes nothing about those placed. */
  lemma ThriftyStays(f: seq<Block>, b: nat, i: nat, lastUse: map<nat, nat>, cross: set<nat>, pinned: set<nat>,
                     offsets: map<nat, nat>, more: map<nat, nat>)
    requires b < |f| && i < |f[b].values| && ThriftyAt(f, b, i, lastUse, cross, pinned, offsets)
    requires Extends(offsets, more) && Given(Spot(f, b, i + 1, lastUse, cross, pinned), offsets)
    ensures ThriftyAt(f, b, i, lastUse, cross, pinned, more)
  {
    var s := Spot(f, b, i + 1, lastUse, cross, pinned);
    var v := f[b].values[i];
    if Local(v, cross, pinned) && v.id in more && FirstHolder(f, cross, pinned, more, b, i, more[v.id]) {
      assert Before(b, i, b, i + 1) && v.id in offsets;
      assert FirstHolder(f, cross, pinned, offsets, b, i, offsets[v.id]);
      forall c: nat, j: nat | SharedBefore(f, cross, pinned, b, i, c, j) && KeyOf(f[c].values[j]) == KeyOf(v)
                    && f[c].values[j].id in more
        ensures StillRead(f[b], i, lastUse, cross, pinned, more, more[f[c].values[j].id])
      {
        assert Before(c, j, b, i + 1) && f[c].values[j].id in offsets;
        assert StillRead(f[b], i, lastUse, cross, pinned, offsets, offsets[f[c].values[j].id]);
        var q :| 0 <= q < i && q < |f[b].values|
          && HasUntil(f[b].values[q], i, lastUse, cross, pinned, offsets, offsets[f[c].values[j].id]);
        assert HasUntil(f[b].values[q], i, lastUse, cross, pinned, more, more[f[c].values[j].id]);
      }
    }
  }

  /** One more value is placed. */
  lemma ThriftyNext(s: Spot, st: Layout, more: map<nat, nat>)
    requires AllKnown(s, st) && s.i < |s.f[s.b].values| && Extends(st.offsets, more)
    requires ThriftyUpTo(s.f, s.b, s.i, s.lastUse, s.cross, s.pinned, st.offsets)
    requires ThriftyAt(s.f, s.b, s.i, s.lastUse, s.cross, s.pinned, more)
    ensures ThriftyUpTo(s.f, s.b, s.i + 1, s.lastUse, s.cross, s.pinned, more)
  {
    assert Known(s, st, Values);
    forall i | 0 <= i < s.i + 1 && i < |s.f[s.b].values|
      ensures ThriftyAt(s.f, s.b, i, s.lastUse, s.cross, s.pinned, more)
    {
      if i < s.i {
        assert Given(Spot(s.f, s.b, i + 1, s.lastUse, s.cross, s.pinned), st.offsets);
        ThriftyStays(s.f, s.b, i, s.lastUse, s.cross, s.pinned, st.offsets, more);
      }
    }
  }

  /** One more block is placed. */
  lemma ThriftyBlocks(s: Spot, st: Layout, lastUses: seq<map<nat, nat>>, more: map<nat, nat>, lastUse: map<nat, nat>)
    requires AllKnown(s, st) && s.i == 0 && |lastUses| == s.b && Extends(st.offsets, more)
    requires Thrifty(s.f, lastUses, s.cross, s.pinned, st.offsets)
    requires ThriftyUpTo(s.f, s.b, |s.f[s.b].values|, lastUse, s.cross, s.pinned, more)
    ensures Thrifty(s.f, lastUses + [lastUse], s.cross, s.pinned, more)
  {
    assert Known(s, st, Values);
    var all := lastUses + [lastUse];
    forall b, i | 0 <= b < |all| && 0 <= i < |s.f[b].values|
      ensures ThriftyAt(s.f, b, i, all[b], s.cross, s.pinned, more)
    {
      if b < s.b {
        assert ThriftyAt(s.f, b, i, lastUses[b], s.cross, s.pinned, st.offsets);
        assert Given(Spot(s.f, b, i + 1, lastUses[b], s.cross, s.pinned), st.offsets);
        ThriftyStays(s.f, b, i, lastUses[b], s.cross, s.pinned, st.offsets, more);
      }
    }
  }

  lemma KnownStart(f: seq<Block>, cross: set<nat>, pinned: set<nat>, st: Layout)
    requires |f| > 0 && st.active == [] && st.cells == map[]
    ensures AllKnown(Spot(f, 0, 0, map[], cross, pinned), st)
  {
    var s := Spot(f, 0, 0, map[], cross, pinned);
    forall fact
      ensures Known(s, st, fact)
    {
    }
  }

  lemma KnownAnyUse(s: Spot, st: Layout, lastUse: map<nat, nat>)
    requires AllKnown(s, st) && st.active == []
    ensures AllKnown(s.(lastUse := lastUse), st)
  {
    assert Known(s, st, Cells) && Known(s, st, Values);
    var t := s.(lastUse := lastUse);
    forall o | o in st.cells
      ensures HandedOut(t, st.offsets, o)
    {
      assert HandedOut(s, st.offsets, o);
    }
    forall fact
      ensures Known(t, st, fact)
    {
    }
  }

  // ----- no slot is lost -----

  /** The slots that expire before `i`, and the others. */
  function Expired(es: seq<Active>, i: nat): seq<Active> {
    if es == [] then []
    else Expired(es[..|es| - 1], i) + if es[|es| - 1].expiresAt < i then [es[|es| - 1]] else []
  }

  function Kept(es: seq<Active>, i: nat): seq<Active> {
    if es == [] then []
    else Kept(es[..|es| - 1], i) + if es[|es| - 1].expiresAt < i then [] else [es[|es| - 1]]
  }

  function HandBack(pool: map<Key, seq<nat>>, e: Active): map<Key, seq<nat>> {
    pool[e.key := Free(pool, e.key) + [e.offset]]
  }

  /** The pool after slots are handed back in order. */
  function HandBackAll(pool: map<Key, seq<nat>>, es: seq<Active>): map<Key, seq<nat>> {
    if es == [] then pool else HandBack(HandBackAll(pool, es[..|es| - 1]), es[|es| - 1])
  }

  lemma BackSnoc(pool: map<Key, seq<nat>>, es: seq<Active>, e: Active)
    ensures HandBackAll(pool, es + [e]) == HandBack(HandBackAll(pool, es), e)
  {
    assert (es + [e])[..|es|] == es;
  }

  lemma {:induction false} KeptOnly(es: seq<Active>, i: nat)
    ensures forall e :: e in Kept(es, i) <==> e in es && e.expiresAt >= i
  {
    if es != [] {
      KeptOnly(es[..|es| - 1], i);
      assert es == es[..|es| - 1] + [es[|es| - 1]];
    }
  }

  lemma SameNoneLost(st: Layout, st': Layout, but: Option<nat>)
    requires NoneLost(st, but) && st'.pool == st.pool && st'.active == st.active && st'.cells == st.cells
    ensures NoneLost(st', but)
  {
    forall o | o in st'.cells && !st'.cells[o].dedicated && but != Some(o)
      ensures FreeOrActive(st', o)
    {
      assert FreeOrActive(st, o);
    }
  }

  /** An active slot becomes free. */
  lemma HandedBack(st: Layout, keep: seq<Active>, e: Active, rest: seq<Active>)
    requires NoneLost(st, None) && st.active == keep + ([e] + rest) && e.offset in st.cells
    requires st.cells[e.offset].key == e.key
    ensures NoneLost(st.(pool := HandBack(st.pool, e), active := keep + rest), None)
  {
    var st' := st.(pool := HandBack(st.pool, e), active := keep + rest);
    forall o | o in st'.cells && !st'.cells[o].dedicated
      ensures FreeOrActive(st', o)
    {
      assert FreeOrActive(st, o);
      if o !in Free(st.pool, st.cells[o].key) && o != e.offset {
        var x :| 0 <= x < |st.active| && st.active[x].offset == o;
        assert (keep + rest)[if x < |keep| then x else x - 1] == st.active[x];
      }
    }
  }

  /** The last free slot of a shape is taken out. */
  lemma TakenOut(st: Layout, k: Key)
    requires NoneLost(st, None) && Free(st.pool, k) != []
    ensures var n := |Free(st.pool, k)| - 1;
            NoneLost(st.(pool := st.pool[k := Free(st.pool, k)[..n]]), Some(Free(st.pool, k)[n]))
  {
    var n := |Free(st.pool, k)| - 1;
    var st' := st.(pool := st.pool[k := Free(st.pool, k)[..n]]);
    forall o | o in st'.cells && !st'.cells[o].dedicated && Free(st.pool, k)[n] != o
      ensures FreeOrActive(st', o)
    {
      assert FreeOrActive(st, o);
      assert Free(st.pool, k) == Free(st.pool, k)[..n] + [Free(st.pool, k)[n]];
    }
  }

  /** A new slot is added. */
  lemma Widened(st: Layout, o: nat, c: Cell)
    requires NoneLost(st, None) && o !in st.cells
    ensures NoneLost(st.(cells := st.cells[o := c]), if c.dedicated then None else Some(o))
  {
    var st' := st.(cells := st.cells[o := c]);
    forall p | p in st'.cells && !st'.cells[p].dedicated && p != o
      ensures FreeOrActive(st', p)
    {
      assert FreeOrActive(st, p);
    }
  }

  /** The slot taken out is handed back at once, or becomes active. */
  lemma FoundAgain(st: Layout, e: Active)
    requires NoneLost(st, Some(e.offset)) && e.offset in st.cells && st.cells[e.offset].key == e.key
    ensures NoneLost(st.(pool := HandBack(st.pool, e)), None)
  {
    var st' := st.(pool := HandBack(st.pool, e));
    forall o | o in st'.cells && !st'.cells[o].dedicated
      ensures FreeOrActive(st', o)
    {
      assert o != e.offset ==> FreeOrActive(st, o);
    }
  }

  lemma NowActive(st: Layout, e: Active)
    requires NoneLost(st, Some(e.offset))
    ensures NoneLost(st.(active := st.active + [e]), None)
  {
    var st' := st.(active := st.active + [e]);
    assert st'.active[|st.active|] == e;
    forall o | o in st'.cells && !st'.cells[o].dedicated
      ensures FreeOrActive(st', o)
    {
      if o != e.offset {
        assert FreeOrActive(st, o);
        if o !in Free(st.pool, st.cells[o].key) {
          var x :| 0 <= x < |st.active| && st.active[x].offset == o;
          assert st'.active[x].offset == o;
        }
      }
    }
  }

  lemma LastFree(cells: map<nat, Cell>, pool: map<Key, seq<nat>>, k: Key)
    requires FreeOk(cells, pool) && Free(pool, k) != []
    ensures var o := Free(pool, k)[|Free(pool, k)| - 1]; o in cells && cells[o] == Cell(k, false)
  {
  }
}
