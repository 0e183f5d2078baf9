/** The allocation of stack slots with reuse. */
module SlotPlan {
  import opened Basics
  import opened Frame
  import opened SlotReuse
  import opened SlotAlloc
  import opened SlotThrift

  // ----- what the steps do -----

  /** Slots last read before position `i` are handed back. */
  ghost function Released(st: Layout, i: nat): Layout {
    st.(pool := HandBackAll(st.pool, Expired(st.active, i)), active := Kept(st.active, i))
  }

  /** A cell is added at the end of the frame. */
  ghost function Extended(st: Layout, k: Key, dedicated: bool): Layout
    requires IsAlign(k.align)
  {
    var o := AlignUp(st.off, k.align);
    st.(off := o + k.size, cells := st.cells[o := Cell(k, dedicated)])
  }

  /** The slot of the shape that was freed last, or else a new one. */
  ghost function SlotFor(st: Layout, k: Key): nat
    requires IsAlign(k.align)
  {
    var free := Free(st.pool, k);
    if free != [] then free[|free| - 1] else AlignUp(st.off, k.align)
  }

  ghost function Taken(st: Layout, k: Key): Layout
    requires IsAlign(k.align)
  {
    var free := Free(st.pool, k);
    if free != [] then st.(pool := st.pool[k := free[..|free| - 1]]) else Extended(st, k, false)
  }

  /** Value `v` at position `i` has shared slot `o`: it is handed back at once if the value is never read. */
  ghost function Settled(st: Layout, v: Value, i: nat, lastUse: map<nat, nat>, o: nat): Layout {
    var e := Active(v.id, LastOf(lastUse, v.id), KeyOf(v), o);
    var more := st.(offsets := st.offsets[v.id := o]);
    if e.expiresAt < i then more.(pool := HandBack(st.pool, e)) else more.(active := st.active + [e])
  }

  /** One value. */
  ghost function PlacedNext(s: Spot, st: Layout): Layout
    requires s.b < |s.f| && s.i < |s.f[s.b].values|
  {
    var v := s.f[s.b].values[s.i];
    if SlotSize(v.typ) == 0 then st
    else
      var st' := Released(st, s.i);
      if Dedicated(v, s.cross, s.pinned) then
        Extended(st', KeyOf(v), true).(offsets := st.offsets[v.id := AlignUp(st'.off, SlotAlign(v.typ))])
      else Settled(Taken(st', KeyOf(v)), v, s.i, s.lastUse, SlotFor(st', KeyOf(v)))
  }

  /** The first `n` values of a block. */
  ghost function PlacedFirst(s: Spot, st: Layout, n: nat): Layout
    requires s.b < |s.f| && n <= |s.f[s.b].values|
  {
    if n == 0 then st else PlacedNext(s.(i := n - 1), PlacedFirst(s, st, n - 1))
  }

  /** All slots still active at the end of a block are handed back. */
  ghost function Ended(st: Layout): Layout {
    st.(pool := HandBackAll(st.pool, st.active), active := [])
  }

  /** The layout of the first `n` blocks. */
  ghost function LaidUpTo(f: seq<Block>, n: nat, lastUses: seq<map<nat, nat>>, cross: set<nat>, pinned: set<nat>,
                          start: Layout): Layout
    requires n <= |f| && n <= |lastUses|
  {
    if n == 0 then start
    else
      var before := LaidUpTo(f, n - 1, lastUses, cross, pinned, start);
      Ended(PlacedFirst(Spot(f, n - 1, 0, lastUses[n - 1], cross, pinned), before, |f[n - 1].values|))
  }

  // ----- what every step keeps -----

  ghost predicate FrameOk(st: Layout, base: nat) {
    base <= st.off && CellsOk(st.cells, base, st.off) && FreeOk(st.cells, st.pool)
    && ActiveOk(st.cells, st.pool, st.active)
  }

  datatype Part = Pieces | Conflicts | Thrift | History

  ghost predicate Holds(s: Spot, st: Layout, base: nat, part: Part) {
    match part
    case Pieces => FrameOk(st, base)
    case Conflicts => Placing(s.f, s.b, s.i, s.lastUse, s.cross, s.pinned, st.offsets, st.active, st.cells)
                      && AllPlaced(st.cells, st.offsets)
    case Thrift => NoneLost(st, None) && Snug(st.cells, base, st.off)
    case History => AllKnown(s, st)
  }

  ghost predicate Sound(s: Spot, st: Layout, base: nat) {
    forall part {:trigger Holds(s, st, base, part)} :: Holds(s, st, base, part)
  }

  lemma Open(s: Spot, st: Layout, base: nat)
    requires Sound(s, st, base)
    ensures FrameOk(st, base) && AllPlaced(st.cells, st.offsets)
    ensures Placing(s.f, s.b, s.i, s.lastUse, s.cross, s.pinned, st.offsets, st.active, st.cells)
    ensures NoneLost(st, None) && Snug(st.cells, base, st.off) && AllKnown(s, st)
  {
    assert Holds(s, st, base, Pieces) && Holds(s, st, base, Conflicts);
    assert Holds(s, st, base, Thrift) && Holds(s, st, base, History);
  }

  lemma Seal(s: Spot, st: Layout, base: nat)
    requires FrameOk(st, base) && AllPlaced(st.cells, st.offsets)
    requires Placing(s.f, s.b, s.i, s.lastUse, s.cross, s.pinned, st.offsets, st.active, st.cells)
    requires NoneLost(st, None) && Snug(st.cells, base, st.off) && AllKnown(s, st)
    ensures Sound(s, st, base)
  {
    forall part
      ensures Holds(s, st, base, part)
    {
    }
  }

  // ----- handing back -----

  /** The first `x` entries of the active list have been looked at. */
  ghost function ReleasedPart(st: Layout, i: nat, x: nat): Layout
    requires x <= |st.active|
  {
    st.(pool := HandBackAll(st.pool, Expired(st.active[..x], i)), active := Kept(st.active[..x], i) + st.active[x..])
  }

  lemma {:induction false} ReleasedKeeps(st: Layout, base: nat, i: nat, x: nat)
    requires FrameOk(st, base) && NoneLost(st, None) && x <= |st.active|
    ensures FrameOk(ReleasedPart(st, i, x), base) && NoneLost(ReleasedPart(st, i, x), None)
  {
    if x == 0 {
      assert [] + st.active == st.active && st.active[..0] == [];
    } else {
      ReleasedKeeps(st, base, i, x - 1);
      ReleasedOne(st, ReleasedPart(st, i, x - 1), base, i, x - 1);
    }
  }

  lemma ReleasedNext(st: Layout, i: nat, x: nat)
    requires x < |st.active|
    ensures var was, e := ReleasedPart(st, i, x), st.active[x];
            && was.active == Kept(st.active[..x], i) + ([e] + st.active[x + 1..])
            && ReleasedPart(st, i, x + 1)
               == if e.expiresAt < i then
                    was.(pool := HandBack(was.pool, e), active := Kept(st.active[..x], i) + st.active[x + 1..])
                  else was
  {
    var e, keep, rest := st.active[x], Kept(st.active[..x], i), st.active[x + 1..];
    assert st.active[..x + 1] == st.active[..x] + [e] && st.active[x..] == [e] + rest;
    KeptSnoc(st.active[..x], e, i);
    BackSnoc(st.pool, Expired(st.active[..x], i), e);
    assert keep + ([e] + rest) == keep + [e] + rest;
  }

  lemma ReleasedOne(st: Layout, was: Layout, base: nat, i: nat, x: nat)
    requires x < |st.active| && was == ReleasedPart(st, i, x) && FrameOk(was, base) && NoneLost(was, None)
    ensures FrameOk(ReleasedPart(st, i, x + 1), base) && NoneLost(ReleasedPart(st, i, x + 1), None)
  {
    ReleasedNext(st, i, x);
    if st.active[x].expiresAt < i {
      OneBack(was, base, Kept(st.active[..x], i), st.active[x], st.active[x + 1..]);
    }
  }

  lemma KeptSnoc(es: seq<Active>, e: Active, i: nat)
    ensures if e.expiresAt < i then Kept(es + [e], i) == Kept(es, i) && Expired(es + [e], i) == Expired(es, i) + [e]
            else Kept(es + [e], i) == Kept(es, i) + [e] && Expired(es + [e], i) == Expired(es, i)
  {
    assert (es + [e])[..|es|] == es;
    assert Kept(es, i) + [] == Kept(es, i) && Expired(es, i) + [] == Expired(es, i);
  }

  /** One active slot is handed back. */
  lemma OneBack(st: Layout, base: nat, keep: seq<Active>, e: Active, rest: seq<Active>)
    requires FrameOk(st, base) && NoneLost(st, None) && st.active == keep + ([e] + rest)
    ensures FrameOk(st.(pool := HandBack(st.pool, e), active := keep + rest), base)
    ensures NoneLost(st.(pool := HandBack(st.pool, e), active := keep + rest), None)
  {
    assert st.active[|keep|] == e && ActiveCell(st.cells, st.pool, st.active[|keep|]);
    DropActive(st.cells, st.pool, keep, e, rest);
    FreeGrows(st.cells, st.pool, keep + rest, e.key, e.offset);
    HandedBack(st, keep, e, rest);
  }

  lemma ReleasedAll(st: Layout, i: nat)
    ensures ReleasedPart(st, i, |st.active|) == Released(st, i)
  {
    assert st.active[..|st.active|] == st.active && Kept(st.active, i) + [] == Kept(st.active, i);
  }

  /** After handing back, everything still holds, and what is active is still to be read. */
  lemma ReleaseSound(s: Spot, st: Layout, base: nat)
    requires Sound(s, st, base)
    ensures Sound(s, Released(st, s.i), base)
    ensures forall x :: 0 <= x < |Released(st, s.i).active| ==> Released(st, s.i).active[x].expiresAt >= s.i
  {
    Open(s, st, base);
    var st' := Released(st, s.i);
    ReleasedKeeps(st, base, s.i, |st.active|);
    ReleasedAll(st, s.i);
    KeptOnly(st.active, s.i);
    LiveKept(s.f[s.b], s.i, s.lastUse, s.cross, s.pinned, st.offsets, st.active, st'.active);
    KnownFewer(s, st, st');
    forall x | 0 <= x < |st'.active|
      ensures st'.active[x].expiresAt >= s.i
    {
      assert st'.active[x] in st'.active;
    }
    Seal(s, st', base);
  }

  // ----- dedicated slots -----

  lemma ExtendFrame(st: Layout, base: nat, k: Key, dedicated: bool, f: seq<Block>, cross: set<nat>, pinned: set<nat>)
    requires FrameOk(st, base) && k.size > 0 && IsAlign(k.align) && Owned(f, st.cells, st.offsets, cross, pinned)
    ensures var st', o := Extended(st, k, dedicated), AlignUp(st.off, k.align);
            && FrameOk(st', base) && Owned(f, st'.cells, st'.offsets, cross, pinned) && o !in st.cells
            && (!dedicated ==> Unused(st'.cells, st'.pool, st'.active, k, o))
  {
    var o := AlignUp(st.off, k.align);
    CellGrows(st.cells, st.pool, st.active, base, st.off, o, Cell(k, dedicated));
    OwnedWider(f, st.cells, st.offsets, cross, pinned, o, Cell(k, dedicated));
  }

  lemma ExtendThrift(st: Layout, base: nat, k: Key, dedicated: bool)
    requires IsAlign(k.align) && NoneLost(st, None) && Snug(st.cells, base, st.off)
    requires AlignUp(st.off, k.align) !in st.cells
    ensures var st', o := Extended(st, k, dedicated), AlignUp(st.off, k.align);
            Snug(st'.cells, base, st'.off) && NoneLost(st', if dedicated then None else Some(o))
  {
    var o := AlignUp(st.off, k.align);
    SnugGrows(st.cells, base, st.off, o, Cell(k, dedicated));
    Widened(st, o, Cell(k, dedicated));
    SameNoneLost(st.(cells := st.cells[o := Cell(k, dedicated)]), Extended(st, k, dedicated),
                 if dedicated then None else Some(o));
  }

  lemma ExtendKeeps(st: Layout, base: nat, k: Key, dedicated: bool, f: seq<Block>, cross: set<nat>, pinned: set<nat>)
    requires FrameOk(st, base) && k.size > 0 && IsAlign(k.align) && Owned(f, st.cells, st.offsets, cross, pinned)
    requires NoneLost(st, None) && Snug(st.cells, base, st.off)
    ensures var st', o := Extended(st, k, dedicated), AlignUp(st.off, k.align);
            && FrameOk(st', base) && Owned(f, st'.cells, st'.offsets, cross, pinned) && o !in st.cells
            && Snug(st'.cells, base, st'.off) && NoneLost(st', if dedicated then None else Some(o))
            && (!dedicated ==> Unused(st'.cells, st'.pool, st'.active, k, o))
  {
    ExtendFrame(st, base, k, dedicated, f, cross, pinned);
    ExtendThrift(st, base, k, dedicated);
  }

  /** More cells do not disturb what was placed. */
  lemma PlacingWider(s: Spot, st: Layout, st': Layout)
    requires Placing(s.f, s.b, s.i, s.lastUse, s.cross, s.pinned, st.offsets, st.active, st.cells)
    requires st'.offsets == st.offsets && st'.active == st.active
    requires Owned(s.f, st'.cells, st'.offsets, s.cross, s.pinned)
    ensures Placing(s.f, s.b, s.i, s.lastUse, s.cross, s.pinned, st'.offsets, st'.active, st'.cells)
  {
  }

  lemma DedicateSound(s: Spot, st: Layout, base: nat)
    requires Sound(s, st, base) && s.b < |s.f| && s.i < |s.f[s.b].values| && SlotSize(s.f[s.b].values[s.i].typ) > 0
    requires Dedicated(s.f[s.b].values[s.i], s.cross, s.pinned)
    ensures var k := KeyOf(s.f[s.b].values[s.i]);
            var o := AlignUp(st.off, k.align);
            Sound(s.(i := s.i + 1),
                  Extended(st, k, true).(offsets := st.offsets[s.f[s.b].values[s.i].id := o]), base)
  {
    Open(s, st, base);
    var v := s.f[s.b].values[s.i];
    var k := KeyOf(v);
    var o := AlignUp(st.off, k.align);
    var wide := Extended(st, k, true);
    var st' := wide.(offsets := st.offsets[v.id := o]);
    ExtendKeeps(st, base, k, true, s.f, s.cross, s.pinned);
    PlacingWider(s, st, wide);
    PlacingStep(s.f, s.b, s.i, s.lastUse, s.cross, s.pinned, st.offsets, st.active, wide.cells, o, st.active);
    SameNoneLost(wide, st', None);
    KnownNext(s, st, o, st');
    Seal(s.(i := s.i + 1), st', base);
  }

  // ----- shared slots -----

  lemma TakeKeeps(st: Layout, base: nat, k: Key, f: seq<Block>, cross: set<nat>, pinned: set<nat>)
    requires FrameOk(st, base) && k.size > 0 && IsAlign(k.align) && Owned(f, st.cells, st.offsets, cross, pinned)
    requires NoneLost(st, None) && Snug(st.cells, base, st.off)
    ensures var st', o := Taken(st, k), SlotFor(st, k);
            && FrameOk(st', base) && Owned(f, st'.cells, st'.offsets, cross, pinned)
            && Snug(st'.cells, base, st'.off) && NoneLost(st', Some(o))
            && Unused(st'.cells, st'.pool, st'.active, k, o) && (forall p :: p in st.cells ==> p in st'.cells)
            && if o in st.cells then st.cells[o] == Cell(k, false) && st'.cells == st.cells
               else Free(st.pool, k) == [] && st'.cells == st.cells[o := Cell(k, false)]
  {
    if Free(st.pool, k) != [] {
      LastFree(st.cells, st.pool, k);
      FreeShrinks(st.cells, st.pool, st.active, k);
      TakenOut(st, k);
    } else {
      ExtendKeeps(st, base, k, false, f, cross, pinned);
    }
  }

  lemma SettleFrame(st: Layout, base: nat, v: Value, i: nat, lastUse: map<nat, nat>, o: nat)
    requires FrameOk(st, base) && NoneLost(st, Some(o)) && Unused(st.cells, st.pool, st.active, KeyOf(v), o)
    ensures FrameOk(Settled(st, v, i, lastUse, o), base) && NoneLost(Settled(st, v, i, lastUse, o), None)
  {
    var e := Active(v.id, LastOf(lastUse, v.id), KeyOf(v), o);
    var st' := Settled(st, v, i, lastUse, o);
    if e.expiresAt < i {
      FreeGrows(st.cells, st.pool, st.active, e.key, o);
      FoundAgain(st, e);
      SameNoneLost(st.(pool := HandBack(st.pool, e)), st', None);
    } else {
      ActiveGrows(st.cells, st.pool, st.active, e);
      NowActive(st, e);
      SameNoneLost(st.(active := st.active + [e]), st', None);
    }
  }

  lemma SettlePlacing(s: Spot, st: Layout, o: nat)
    requires Placing(s.f, s.b, s.i, s.lastUse, s.cross, s.pinned, st.offsets, st.active, st.cells)
    requires s.i < |s.f[s.b].values| && Local(s.f[s.b].values[s.i], s.cross, s.pinned)
    requires Unused(st.cells, st.pool, st.active, KeyOf(s.f[s.b].values[s.i]), o)
    ensures var st' := Settled(st, s.f[s.b].values[s.i], s.i, s.lastUse, o);
            Placing(s.f, s.b, s.i + 1, s.lastUse, s.cross, s.pinned, st'.offsets, st'.active, st'.cells)
  {
    var v := s.f[s.b].values[s.i];
    var st' := Settled(st, v, s.i, s.lastUse, o);
    if LastOf(s.lastUse, v.id) >= s.i {
      assert st'.active[|st.active|].offset == o;
    }
    PlacingStep(s.f, s.b, s.i, s.lastUse, s.cross, s.pinned, st.offsets, st.active, st.cells, o, st'.active);
  }

  /** The value at the spot gets a shared slot. */
  ghost function SharedNext(s: Spot, st: Layout): Layout
    requires s.b < |s.f| && s.i < |s.f[s.b].values|
  {
    var v := s.f[s.b].values[s.i];
    Settled(Taken(st, KeyOf(v)), v, s.i, s.lastUse, SlotFor(st, KeyOf(v)))
  }

  /** What is needed to take a slot, and what is known of it then. */
  ghost predicate Takable(s: Spot, st: Layout, base: nat) {
    && FrameOk(st, base) && Owned(s.f, st.cells, st.offsets, s.cross, s.pinned) && NoneLost(st, None)
    && Snug(st.cells, base, st.off)
  }

  lemma SharedFrame(s: Spot, st: Layout, base: nat)
    requires Takable(s, st, base) && s.b < |s.f| && s.i < |s.f[s.b].values|
    requires Local(s.f[s.b].values[s.i], s.cross, s.pinned)
    ensures var st' := SharedNext(s, st); FrameOk(st', base) && NoneLost(st', None) && Snug(st'.cells, base, st'.off)
  {
    var v := s.f[s.b].values[s.i];
    TakeKeeps(st, base, KeyOf(v), s.f, s.cross, s.pinned);
    SettleFrame(Taken(st, KeyOf(v)), base, v, s.i, s.lastUse, SlotFor(st, KeyOf(v)));
  }

  lemma SharedPlacing(s: Spot, st: Layout, mid: Layout, o: nat)
    requires Placing(s.f, s.b, s.i, s.lastUse, s.cross, s.pinned, st.offsets, st.active, st.cells)
    requires AllPlaced(st.cells, st.offsets) && s.i < |s.f[s.b].values|
    requires Local(s.f[s.b].values[s.i], s.cross, s.pinned)
    requires mid.offsets == st.offsets && mid.active == st.active && forall p :: p in st.cells ==> p in mid.cells
    requires Owned(s.f, mid.cells, mid.offsets, s.cross, s.pinned)
    requires Unused(mid.cells, mid.pool, mid.active, KeyOf(s.f[s.b].values[s.i]), o)
    ensures var st' := Settled(mid, s.f[s.b].values[s.i], s.i, s.lastUse, o);
            && AllPlaced(st'.cells, st'.offsets)
            && Placing(s.f, s.b, s.i + 1, s.lastUse, s.cross, s.pinned, st'.offsets, st'.active, st'.cells)
  {
    PlacingWider(s, st, mid);
    SettlePlacing(s, mid, o);
  }

  lemma SharedPieces(s: Spot, st: Layout, base: nat)
    requires Sound(s, st, base) && s.b < |s.f| && s.i < |s.f[s.b].values|
    requires Local(s.f[s.b].values[s.i], s.cross, s.pinned)
    ensures var st' := SharedNext(s, st);
            && AllPlaced(st'.cells, st'.offsets)
            && Placing(s.f, s.b, s.i + 1, s.lastUse, s.cross, s.pinned, st'.offsets, st'.active, st'.cells)
  {
    Open(s, st, base);
    var k := KeyOf(s.f[s.b].values[s.i]);
    TakeKeeps(st, base, k, s.f, s.cross, s.pinned);
    SharedPlacing(s, st, Taken(st, k), SlotFor(st, k));
  }

  lemma SharedThrift(s: Spot, st: Layout, base: nat)
    requires Takable(s, st, base) && AllKnown(s, st) && s.b < |s.f| && s.i < |s.f[s.b].values|
    requires Local(s.f[s.b].values[s.i], s.cross, s.pinned) && DistinctIds(s.f) && Ahead(s.f, st.offsets, s.b, s.i)
    requires forall x :: 0 <= x < |st.active| ==> st.active[x].expiresAt >= s.i
    ensures ThriftyAt(s.f, s.b, s.i, s.lastUse, s.cross, s.pinned, SharedNext(s, st).offsets)
  {
    var k := KeyOf(s.f[s.b].values[s.i]);
    SlotForCell(st, base, k);
    ThriftyNow(s, st, SlotFor(st, k));
  }

  lemma SlotForCell(st: Layout, base: nat, k: Key)
    requires FrameOk(st, base) && IsAlign(k.align)
    ensures var o := SlotFor(st, k);
            if o in st.cells then st.cells[o] == Cell(k, false) else Free(st.pool, k) == []
  {
    if Free(st.pool, k) != [] {
      LastFree(st.cells, st.pool, k);
    }
  }

  lemma SharedTakable(s: Spot, st: Layout, base: nat)
    requires Sound(s, st, base)
    ensures Takable(s, st, base) && AllKnown(s, st) && DistinctIds(s.f) && Ahead(s.f, st.offsets, s.b, s.i)
  {
    Open(s, st, base);
  }

  lemma SharedSound(s: Spot, st: Layout, base: nat)
    requires Sound(s, st, base) && s.b < |s.f| && s.i < |s.f[s.b].values|
    requires Local(s.f[s.b].values[s.i], s.cross, s.pinned)
    requires forall x :: 0 <= x < |st.active| ==> st.active[x].expiresAt >= s.i
    ensures Sound(s.(i := s.i + 1), SharedNext(s, st), base)
    ensures ThriftyAt(s.f, s.b, s.i, s.lastUse, s.cross, s.pinned, SharedNext(s, st).offsets)
  {
    SharedPieces(s, st, base);
    SharedTakable(s, st, base);
    SharedFrame(s, st, base);
    SharedThrift(s, st, base);
    SettledKnown(s, st, SlotFor(st, KeyOf(s.f[s.b].values[s.i])), SharedNext(s, st));
    Seal(s.(i := s.i + 1), SharedNext(s, st), base);
  }

  lemma SettledKnown(s: Spot, st: Layout, o: nat, st': Layout)
    requires AllKnown(s, st) && s.i < |s.f[s.b].values| && DistinctIds(s.f) && Ahead(s.f, st.offsets, s.b, s.i)
    requires Local(s.f[s.b].values[s.i], s.cross, s.pinned)
    requires var v := s.f[s.b].values[s.i];
             && o == SlotFor(st, KeyOf(v)) && st' == Settled(Taken(st, KeyOf(v)), v, s.i, s.lastUse, o)
    ensures AllKnown(s.(i := s.i + 1), st')
  {
    KnownNext(s, st, o, st');
  }

  // ----- one value, one block, all blocks -----

  lemma NextSound(s: Spot, st: Layout, base: nat)
    requires Sound(s, st, base) && s.b < |s.f| && s.i < |s.f[s.b].values|
    ensures var st' := PlacedNext(s, st);
            && Sound(s.(i := s.i + 1), st', base) && Extends(st.offsets, st'.offsets)
            && ThriftyAt(s.f, s.b, s.i, s.lastUse, s.cross, s.pinned, st'.offsets)
  {
    var v := s.f[s.b].values[s.i];
    Unplaced(s, st, base);
    if SlotSize(v.typ) == 0 {
      SkipSound(s, st, base);
    } else {
      ReleaseSound(s, st, base);
      if Dedicated(v, s.cross, s.pinned) {
        DedicateSound(s, Released(st, s.i), base);
      } else {
        SharedSound(s, Released(st, s.i), base);
      }
    }
  }

  lemma Unplaced(s: Spot, st: Layout, base: nat)
    requires Sound(s, st, base) && s.b < |s.f| && s.i < |s.f[s.b].values|
    ensures s.f[s.b].values[s.i].id !in st.offsets
  {
    Open(s, st, base);
  }

  lemma SkipSound(s: Spot, st: Layout, base: nat)
    requires Sound(s, st, base) && s.b < |s.f| && s.i < |s.f[s.b].values| && SlotSize(s.f[s.b].values[s.i].typ) == 0
    ensures Sound(s.(i := s.i + 1), st, base)
  {
    Open(s, st, base);
    PlacingSkip(s.f, s.b, s.i, s.lastUse, s.cross, s.pinned, st.offsets, st.active, st.cells);
    KnownSkip(s, st);
    Seal(s.(i := s.i + 1), st, base);
  }

  lemma {:induction false} ValuesSound(s: Spot, st: Layout, base: nat, n: nat)
    requires s.i == 0 && Sound(s, st, base) && s.b < |s.f| && n <= |s.f[s.b].values|
    ensures var st' := PlacedFirst(s, st, n);
            && Sound(s.(i := n), st', base) && Extends(st.offsets, st'.offsets)
            && ThriftyUpTo(s.f, s.b, n, s.lastUse, s.cross, s.pinned, st'.offsets)
  {
    if n > 0 {
      ValuesSound(s, st, base, n - 1);
      var mid := PlacedFirst(s, st, n - 1);
      NextSound(s.(i := n - 1), mid, base);
      assert Holds(s.(i := n - 1), mid, base, History);
      ThriftyNext(s.(i := n - 1), mid, PlacedFirst(s, st, n).offsets);
    }
  }

  lemma {:induction false} EndKeeps(st: Layout, base: nat, x: nat)
    requires FrameOk(st, base) && NoneLost(st, None) && x <= |st.active|
    ensures FrameOk(EndedPart(st, x), base) && NoneLost(EndedPart(st, x), None)
  {
    if x == 0 {
      assert st.active[0..] == st.active && EndedPart(st, 0) == st;
    } else {
      EndKeeps(st, base, x - 1);
      EndOne(st, EndedPart(st, x - 1), base, x - 1);
    }
  }

  ghost function EndedPart(st: Layout, x: nat): Layout
    requires x <= |st.active|
  {
    st.(pool := HandBackAll(st.pool, st.active[..x]), active := st.active[x..])
  }

  lemma EndedNext(st: Layout, x: nat)
    requires x < |st.active|
    ensures var was, e, rest := EndedPart(st, x), st.active[x], st.active[x + 1..];
            && was.active == [] + ([e] + rest)
            && EndedPart(st, x + 1) == was.(pool := HandBack(was.pool, e), active := [] + rest)
  {
    var e, rest := st.active[x], st.active[x + 1..];
    assert st.active[..x + 1] == st.active[..x] + [e];
    assert st.active[x..] == [] + ([e] + rest) && [] + rest == rest;
    BackSnoc(st.pool, st.active[..x], e);
  }

  lemma EndOne(st: Layout, was: Layout, base: nat, x: nat)
    requires x < |st.active| && was == EndedPart(st, x) && FrameOk(was, base) && NoneLost(was, None)
    ensures FrameOk(EndedPart(st, x + 1), base) && NoneLost(EndedPart(st, x + 1), None)
  {
    EndedNext(st, x);
    OneBack(was, base, [], st.active[x], st.active[x + 1..]);
  }

  /** Between blocks: nothing is active. */
  ghost predicate Between(f: seq<Block>, b: nat, cross: set<nat>, pinned: set<nat>, st: Layout, base: nat) {
    && FrameOk(st, base) && AllPlaced(st.cells, st.offsets) && st.active == []
    && Owned(f, st.cells, st.offsets, cross, pinned) && Alone(f, st.offsets, cross, pinned)
    && Ahead(f, st.offsets, b, 0)
    && NoneLost(st, None) && Snug(st.cells, base, st.off)
    && (b < |f| ==> AllKnown(Spot(f, b, 0, map[], cross, pinned), st))
  }

  lemma BlockBegins(f: seq<Block>, b: nat, cross: set<nat>, pinned: set<nat>, st: Layout, base: nat,
                    lastUse: map<nat, nat>)
    requires DistinctIds(f) && b < |f| && Between(f, b, cross, pinned, st, base)
    ensures Sound(Spot(f, b, 0, lastUse, cross, pinned), st, base)
  {
    KnownAnyUse(Spot(f, b, 0, map[], cross, pinned), st, lastUse);
    Seal(Spot(f, b, 0, lastUse, cross, pinned), st, base);
  }

  lemma BlockEnds(s: Spot, st: Layout, base: nat)
    requires s.b < |s.f| && s.i == |s.f[s.b].values| && Sound(s, st, base)
    ensures Between(s.f, s.b + 1, s.cross, s.pinned, Ended(st), base)
    ensures NoClash(s.f[s.b], s.i, s.lastUse, s.cross, s.pinned, st.offsets) && PlacedUpTo(s.f[s.b], s.i, st.offsets)
  {
    Open(s, st, base);
    EndKeeps(st, base, |st.active|);
    assert st.active[..|st.active|] == st.active && st.active[|st.active|..] == [];
    assert EndedPart(st, |st.active|) == Ended(st);
    KnownFewer(s, st, Ended(st));
    if s.b + 1 < |s.f| {
      KnownNextBlock(s, Ended(st), map[]);
    }
  }

  /** One whole block. */
  lemma BlockSound(f: seq<Block>, b: nat, cross: set<nat>, pinned: set<nat>, st: Layout, base: nat,
                   lastUse: map<nat, nat>)
    requires DistinctIds(f) && b < |f| && Between(f, b, cross, pinned, st, base)
    requires Covers(f[b], cross, lastUse, |f[b].values| + 1) && Tight(f[b], lastUse)
    ensures var st' := Ended(PlacedFirst(Spot(f, b, 0, lastUse, cross, pinned), st, |f[b].values|));
            && Between(f, b + 1, cross, pinned, st', base) && Extends(st.offsets, st'.offsets)
            && BlockDone(f[b], lastUse, cross, pinned, st'.offsets)
            && ThriftyUpTo(f, b, |f[b].values|, lastUse, cross, pinned, st'.offsets)
  {
    var s, n := Spot(f, b, 0, lastUse, cross, pinned), |f[b].values|;
    BlockBegins(f, b, cross, pinned, st, base, lastUse);
    ValuesSound(s, st, base, n);
    BlockEnds(s.(i := n), PlacedFirst(s, st, n), base);
  }

  /** The first blocks are laid out as they should be. */
  ghost predicate Good(f: seq<Block>, lastUses: seq<map<nat, nat>>, cross: set<nat>, pinned: set<nat>, st: Layout,
                       base: nat) {
    forall side {:trigger GoodSide(f, lastUses, cross, pinned, st, base, side)} ::
      GoodSide(f, lastUses, cross, pinned, st, base, side)
  }

  /** No conflicts, and no waste. */
  datatype Side = Safe | Sparing

  ghost predicate GoodSide(f: seq<Block>, lastUses: seq<map<nat, nat>>, cross: set<nat>, pinned: set<nat>, st: Layout,
                           base: nat, side: Side) {
    match side
    case Safe => |lastUses| <= |f| && Between(f, |lastUses|, cross, pinned, st, base)
                 && BlocksDone(f, lastUses, cross, pinned, st.offsets)
    case Sparing => Thrifty(f, lastUses, cross, pinned, st.offsets)
  }

  lemma OneMoreBlock(f: seq<Block>, lastUses: seq<map<nat, nat>>, cross: set<nat>, pinned: set<nat>, st: Layout,
                     base: nat, lastUse: map<nat, nat>)
    requires DistinctIds(f) && Good(f, lastUses, cross, pinned, st, base) && |lastUses| < |f|
    requires var b := |lastUses|; Covers(f[b], cross, lastUse, |f[b].values| + 1) && Tight(f[b], lastUse)
    ensures var b := |lastUses|;
            var st' := Ended(PlacedFirst(Spot(f, b, 0, lastUse, cross, pinned), st, |f[b].values|));
            Good(f, lastUses + [lastUse], cross, pinned, st', base)
  {
    var b := |lastUses|;
    var st' := Ended(PlacedFirst(Spot(f, b, 0, lastUse, cross, pinned), st, |f[b].values|));
    assert GoodSide(f, lastUses, cross, pinned, st, base, Safe);
    assert GoodSide(f, lastUses, cross, pinned, st, base, Sparing);
    BlockSound(f, b, cross, pinned, st, base, lastUse);
    BlocksGrow(f, lastUses, cross, pinned, st.offsets, st'.offsets, lastUse);
    ThriftyBlocks(Spot(f, b, 0, map[], cross, pinned), st, lastUses, st'.offsets, lastUse);
    forall side
      ensures GoodSide(f, lastUses + [lastUse], cross, pinned, st', base, side)
    {
    }
  }

  lemma BlocksGrow(f: seq<Block>, lastUses: seq<map<nat, nat>>, cross: set<nat>, pinned: set<nat>,
                   offsets: map<nat, nat>, more: map<nat, nat>, lastUse: map<nat, nat>)
    requires BlocksDone(f, lastUses, cross, pinned, offsets) && Extends(offsets, more) && |lastUses| < |f|
    requires BlockDone(f[|lastUses|], lastUse, cross, pinned, more)
    ensures BlocksDone(f, lastUses + [lastUse], cross, pinned, more)
  {
    BlocksStay(f, lastUses, cross, pinned, offsets, more);
    var all := lastUses + [lastUse];
    forall b | 0 <= b < |all|
      ensures BlockDone(f[b], all[b], cross, pinned, more)
    {
      if b < |lastUses| {
        assert BlockDone(f[b], lastUses[b], cross, pinned, more);
      }
    }
  }

  lemma StartGood(f: seq<Block>, cross: set<nat>, pinned: set<nat>, start: Layout)
    requires start == Layout(start.off, map[], map[], [], map[])
    ensures Good(f, [], cross, pinned, start, start.off)
  {
    if |f| > 0 {
      KnownStart(f, cross, pinned, start);
    }
    forall side
      ensures GoodSide(f, [], cross, pinned, start, start.off, side)
    {
    }
  }

  /** The last uses of block `b` are those recorded. */
  ghost predicate RecordedAt(f: seq<Block>, cross: set<nat>, b: nat, lastUse: map<nat, nat>) {
    b < |f| && Covers(f[b], cross, lastUse, |f[b].values| + 1) && Tight(f[b], lastUse)
  }

  ghost predicate Recorded(f: seq<Block>, lastUses: seq<map<nat, nat>>, cross: set<nat>) {
    |lastUses| <= |f|
    && forall b {:trigger RecordedAt(f, cross, b, lastUses[b])} ::
         0 <= b < |lastUses| ==> RecordedAt(f, cross, b, lastUses[b])
  }

  lemma RecordedNext(f: seq<Block>, lastUses: seq<map<nat, nat>>, cross: set<nat>, lastUse: map<nat, nat>)
    requires Recorded(f, lastUses, cross) && RecordedAt(f, cross, |lastUses|, lastUse)
    ensures Recorded(f, lastUses + [lastUse], cross)
  {
    var more := lastUses + [lastUse];
    forall b | 0 <= b < |more|
      ensures RecordedAt(f, cross, b, more[b])
    {
      if b < |lastUses| {
        assert RecordedAt(f, cross, b, lastUses[b]);
      }
    }
  }

  lemma RecordedFront(f: seq<Block>, lastUses: seq<map<nat, nat>>, cross: set<nat>)
    requires Recorded(f, lastUses, cross) && lastUses != []
    ensures Recorded(f, lastUses[..|lastUses| - 1], cross)
    ensures RecordedAt(f, cross, |lastUses| - 1, lastUses[|lastUses| - 1])
  {
    var front := lastUses[..|lastUses| - 1];
    forall b | 0 <= b < |front|
      ensures RecordedAt(f, cross, b, front[b])
    {
      assert RecordedAt(f, cross, b, lastUses[b]);
    }
  }

  lemma {:induction false} LayoutGood(f: seq<Block>, lastUses: seq<map<nat, nat>>, cross: set<nat>, pinned: set<nat>,
                                      start: Layout)
    requires DistinctIds(f) && Recorded(f, lastUses, cross) && start == Layout(start.off, map[], map[], [], map[])
    ensures Good(f, lastUses, cross, pinned, LaidUpTo(f, |lastUses|, lastUses, cross, pinned, start), start.off)
    decreases |lastUses|
  {
    if lastUses == [] {
      StartGood(f, cross, pinned, start);
    } else {
      var front, last := lastUses[..|lastUses| - 1], lastUses[|lastUses| - 1];
      RecordedFront(f, lastUses, cross);
      LayoutGood(f, front, cross, pinned, start);
      assert lastUses == front + [last] && f[|front|] == f[|lastUses| - 1];
      LaidNext(f, front, last, cross, pinned, start);
      OneMoreBlock(f, front, cross, pinned, LaidUpTo(f, |front|, front, cross, pinned, start), start.off, last);
    }
  }

  /** The layout has no conflicts, reuses every slot that it can, and has no gaps. */
  lemma LayoutSound(f: seq<Block>, lastUses: seq<map<nat, nat>>, cross: set<nat>, pinned: set<nat>, start: Layout)
    requires DistinctIds(f) && |lastUses| == |f| && start == Layout(start.off, map[], map[], [], map[])
    requires Recorded(f, lastUses, cross)
    ensures var st := LaidUpTo(f, |f|, lastUses, cross, pinned, start);
            && Laid(f, cross, pinned, lastUses, st.offsets, st.cells, start.off, st.off)
            && Thrifty(f, lastUses, cross, pinned, st.offsets) && Snug(st.cells, start.off, st.off)
  {
    LayoutGood(f, lastUses, cross, pinned, start);
    var st := LaidUpTo(f, |f|, lastUses, cross, pinned, start);
    assert GoodSide(f, lastUses, cross, pinned, st, start.off, Safe);
    assert GoodSide(f, lastUses, cross, pinned, st, start.off, Sparing);
  }

  class SlotPlanner {
    const f: seq<Block>
    const pinned: set<nat>
    const base: nat
    var off: nat
    var offsets: map<nat, nat>
    var pool: map<Key, seq<nat>>
    var active: seq<Active>
    ghost var cells: map<nat, Cell>

    constructor (f: seq<Block>, pinned: set<nat>, maxCallee: nat)
      ensures this.f == f && this.pinned == pinned && base == maxCallee
      ensures off == maxCallee && offsets == map[] && pool == map[] && active == [] && cells == map[]
    {
      this.f, this.pinned, base := f, pinned, maxCallee;
      off, offsets, pool, active, cells := maxCallee, map[], map[], [], map[];
    }

    ghost function State(): Layout
      reads this
    {
      Layout(off, offsets, pool, active, cells)
    }

    /** Hands back the slots last read before position `i`. */
    method Release(i: nat)
      modifies this`pool, this`active
      ensures State() == Released(old(State()), i)
    {
      var entries := active;
      var keep: seq<Active> := [];
      for x := 0 to |entries|
        invariant keep == Kept(entries[..x], i) && pool == HandBackAll(old(pool), Expired(entries[..x], i))
      {
        assert entries[..x + 1] == entries[..x] + [entries[x]];
        KeptSnoc(entries[..x], entries[x], i);
        if entries[x].expiresAt < i {
          BackSnoc(old(pool), Expired(entries[..x], i), entries[x]);
          pool := HandBack(pool, entries[x]);
        } else {
          keep := keep + [entries[x]];
        }
      }
      assert entries[..|entries|] == entries;
      active := keep;
    }

    /** A cell at the end of the frame. */
    method Extend(k: Key, dedicated: bool) returns (o: nat)
      requires IsAlign(k.align)
      modifies this`off, this`cells
      ensures State() == Extended(old(State()), k, dedicated) && o == AlignUp(old(off), k.align)
    {
      o := AlignUp(off, k.align);
      cells := cells[o := Cell(k, dedicated)];
      off := o + k.size;
    }

    /** The cell of the shape that was freed last, or a new one if there is none. */
    method Take(k: Key) returns (o: nat)
      requires IsAlign(k.align)
      modifies this`off, this`cells, this`pool
      ensures State() == Taken(old(State()), k) && o == SlotFor(old(State()), k)
    {
      var free := Free(pool, k);
      if |free| > 0 {
        o := free[|free| - 1];
        pool := pool[k := free[..|free| - 1]];
      } else {
        o := Extend(k, false);
      }
    }

    /** Value `i` of block `b`: slots no longer needed are handed back, then it gets its own. */
    method Place(b: nat, i: nat, lastUse: map<nat, nat>, cross: set<nat>)
      requires b < |f| && i < |f[b].values|
      modifies this`off, this`cells, this`offsets, this`pool, this`active
      ensures State() == PlacedNext(Spot(f, b, i, lastUse, cross, pinned), old(State()))
    {
      var v := f[b].values[i];
      if SlotSize(v.typ) == 0 {
        return;
      }
      Release(i);
      if Dedicated(v, cross, pinned) {
        var o := Extend(KeyOf(v), true);
        offsets := offsets[v.id := o];
        return;
      }
      var o := Take(KeyOf(v));
      offsets := offsets[v.id := o];
      var expires := LastOf(lastUse, v.id);
      if expires < i {
        pool := HandBack(pool, Active(v.id, expires, KeyOf(v), o));
      } else {
        active := active + [Active(v.id, expires, KeyOf(v), o)];
      }
    }

    /** Hands back every active slot at the end of a block. */
    method EndBlock()
      modifies this`pool, this`active
      ensures State() == Ended(old(State()))
    {
      for x := 0 to |active|
        invariant active == old(active) && pool == HandBackAll(old(pool), active[..x])
      {
        assert active[..x + 1] == active[..x] + [active[x]];
        BackSnoc(old(pool), active[..x], active[x]);
        pool := HandBack(pool, active[x]);
      }
      assert active[..|active|] == active;
      active := [];
    }

    /** All values of block `b`. */
    method PlaceBlock(b: nat, cross: set<nat>) returns (lastUse: map<nat, nat>)
      requires b < |f|
      modifies this`off, this`cells, this`offsets, this`pool, this`active
      ensures RecordedAt(f, cross, b, lastUse)
      ensures State() == Ended(PlacedFirst(Spot(f, b, 0, lastUse, cross, pinned), old(State()), |f[b].values|))
    {
      lastUse := LastUses(f[b], cross);
      for i := 0 to |f[b].values|
        invariant State() == PlacedFirst(Spot(f, b, 0, lastUse, cross, pinned), old(State()), i)
      {
        Place(b, i, lastUse, cross);
      }
      EndBlock();
    }

    /** All blocks, in order. */
    method PlaceAll(cross: set<nat>) returns (ghost lastUses: seq<map<nat, nat>>)
      modifies this`off, this`cells, this`offsets, this`pool, this`active
      ensures |lastUses| == |f| && Recorded(f, lastUses, cross)
      ensures State() == LaidUpTo(f, |f|, lastUses, cross, pinned, old(State()))
    {
      lastUses := [];
      for b := 0 to |f|
        invariant |lastUses| == b && State() == LaidUpTo(f, b, lastUses, cross, pinned, old(State()))
        invariant Recorded(f, lastUses, cross)
      {
        var lastUse := PlaceBlock(b, cross);
        RecordedNext(f, lastUses, cross, lastUse);
        LaidNext(f, lastUses, lastUse, cross, pinned, old(State()));
        lastUses := lastUses + [lastUse];
      }
    }

    /** The slots of all values. */
    method AssignSlots() returns (ghost cross: set<nat>, ghost lastUses: seq<map<nat, nat>>)
      requires DistinctIds(f) && State() == Layout(base, map[], map[], [], map[])
      modifies this
      ensures forall x :: x in cross <==> IsCross(f, x)
      ensures |lastUses| == |f| && Recorded(f, lastUses, cross)
      ensures State() == LaidUpTo(f, |f|, lastUses, cross, pinned, old(State()))
      ensures Laid(f, cross, pinned, lastUses, offsets, cells, base, off)
      ensures Thrifty(f, lastUses, cross, pinned, offsets) && Snug(cells, base, off)
    {
      var defBlock := DefinitionBlocks(f);
      var crossing := CrossBlock(f, defBlock);
      cross := crossing;
      lastUses := PlaceAll(crossing);
      LayoutSound(f, lastUses, cross, pinned, old(State()));
    }
  }

  lemma LaidNext(f: seq<Block>, lastUses: seq<map<nat, nat>>, lastUse: map<nat, nat>, cross: set<nat>,
                 pinned: set<nat>, start: Layout)
    requires |lastUses| < |f|
    ensures var b := |lastUses|;
            LaidUpTo(f, b + 1, lastUses + [lastUse], cross, pinned, start)
            == Ended(PlacedFirst(Spot(f, b, 0, lastUse, cross, pinned),
                                 LaidUpTo(f, b, lastUses, cross, pinned, start), |f[b].values|))
  {
    LaidSame(f, |lastUses|, lastUses, lastUses + [lastUse], cross, pinned, start);
  }

  lemma {:induction false} LaidSame(f: seq<Block>, n: nat, lastUses: seq<map<nat, nat>>, more: seq<map<nat, nat>>,
                                    cross: set<nat>, pinned: set<nat>, start: Layout)
    requires n <= |f| && n <= |lastUses| <= |more| && lastUses == more[..|lastUses|]
    ensures LaidUpTo(f, n, more, cross, pinned, start) == LaidUpTo(f, n, lastUses, cross, pinned, start)
  {
    if n > 0 {
      LaidSame(f, n - 1, lastUses, more, cross, pinned, start);
      assert more[n - 1] == lastUses[n - 1];
    }
  }
}
