/** Packing the frame that slot allocation laid out. */
module FrameChain {
  import opened Basics
  import opened Frame
  import SlotReuse
  import SlotAlloc
  import opened CompactFrame

  /** `v` is a value of the function. */
  ghost predicate ValueOf(f: seq<SlotReuse.Block>, v: Value) {
    exists b, i :: 0 <= b < |f| && 0 <= i < |f[b].values| && f[b].values[i].id == v.id && f[b].values[i].typ == v.typ
  }

  /** What the allocation hands over. */
  ghost predicate Planned(f: seq<SlotReuse.Block>, vs: seq<Value>, cross: set<nat>, pinned: set<nat>,
                          lastUses: seq<map<nat, nat>>, offsets: map<nat, nat>, cells: map<nat, SlotAlloc.Cell>,
                          base: nat, off: nat) {
    && SlotAlloc.Laid(f, cross, pinned, lastUses, offsets, cells, base, off)
    && forall v :: v in vs ==> ValueOf(f, v)
  }

  /** The slot of a placed value is a cell of its shape. */
  lemma SlotIsCell(f: seq<SlotReuse.Block>, vs: seq<Value>, cross: set<nat>, pinned: set<nat>,
                   lastUses: seq<map<nat, nat>>, offsets: map<nat, nat>, cells: map<nat, SlotAlloc.Cell>,
                   base: nat, off: nat, v: Value)
    requires Planned(f, vs, cross, pinned, lastUses, offsets, cells, base, off) && v in vs && v.id in offsets
    ensures offsets[v.id] in cells && cells[offsets[v.id]].key == SlotAlloc.Key(SlotSize(v.typ), SlotAlign(v.typ))
  {
    assert ValueOf(f, v);
    var b, i :| 0 <= b < |f| && 0 <= i < |f[b].values| && f[b].values[i].id == v.id && f[b].values[i].typ == v.typ;
    assert SlotAlloc.OwnedAt(cells, offsets, f[b].values[i], cross, pinned);
  }

  /** Whatever moves to registers, the surviving slots are as packing wants them: sharers have one shape, and the
      slots lie in order, aligned, between the callee area and the end of the frame. */
  lemma LaidCompacts(f: seq<SlotReuse.Block>, vs: seq<Value>, cross: set<nat>, pinned: set<nat>,
                     lastUses: seq<map<nat, nat>>, offsets: map<nat, nat>, cells: map<nat, SlotAlloc.Cell>,
                     base: nat, off: nat, regHome: set<nat>)
    requires Planned(f, vs, cross, pinned, lastUses, offsets, cells, base, off)
    ensures SharersAlike(vs, regHome, offsets) && LaidOut(Live(vs, regHome, offsets), base, off)
  {
    forall v, w | v in vs && w in vs && Survives(v, regHome, offsets) && Survives(w, regHome, offsets)
                  && offsets[v.id] == offsets[w.id]
      ensures SlotOf(v, offsets) == SlotOf(w, offsets)
    {
      SlotIsCell(f, vs, cross, pinned, lastUses, offsets, cells, base, off, v);
      SlotIsCell(f, vs, cross, pinned, lastUses, offsets, cells, base, off, w);
    }
    LiveFacts(vs, regHome, offsets);
    var slots := Live(vs, regHome, offsets);
    forall k | 0 <= k < |slots|
      ensures slots[k].off in cells && cells[slots[k].off].key == SlotAlloc.Key(slots[k].size, slots[k].align)
    {
      assert slots[k] in slots;
      var v :| v in vs && Survives(v, regHome, offsets) && SlotOf(v, offsets) == slots[k];
      SlotIsCell(f, vs, cross, pinned, lastUses, offsets, cells, base, off, v);
    }
    CellsInOrder(cells, base, off, slots);
  }

  /** Distinct cells listed by offset follow each other. */
  lemma CellsInOrder(cells: map<nat, SlotAlloc.Cell>, base: nat, off: nat, slots: seq<Slot>)
    requires SlotAlloc.CellsOk(cells, base, off) && Solid(slots) && Increasing(slots)
    requires forall k :: 0 <= k < |slots| ==>
               slots[k].off in cells && cells[slots[k].off].key == SlotAlloc.Key(slots[k].size, slots[k].align)
    ensures LaidOut(slots, base, off)
  {
    forall j, k | 0 <= j < k < |slots|
      ensures slots[j].off + slots[j].size <= slots[k].off
    {
      assert slots[j].off < slots[k].off;
    }
  }

  /** So packing an allocated frame never makes it grow, and packs survivors without overlap. */
  lemma PackedFrameFits(f: seq<SlotReuse.Block>, vs: seq<Value>, cross: set<nat>, pinned: set<nat>,
                        lastUses: seq<map<nat, nat>>, offsets: map<nat, nat>, cells: map<nat, SlotAlloc.Cell>,
                        base: nat, off: nat, regHome: set<nat>, types: map<nat, Type>, temps: map<nat, nat>,
                        ids: seq<nat>, offsets': map<nat, nat>, temps': map<nat, nat>, frame': nat, frame: nat)
    requires Planned(f, vs, cross, pinned, lastUses, offsets, cells, base, off) && base <= off
    requires Compacted(vs, types, regHome, base, offsets, temps, ids, offsets', temps', frame')
    requires LaidOut(TempSlots(ids, temps, types), off, frame) && off <= frame && frame % 8 == 0
    ensures frame' <= frame
    ensures forall v, w :: v in vs && w in vs && Survives(v, regHome, offsets) && Survives(w, regHome, offsets) ==>
              (offsets'[v.id] == offsets'[w.id] <==> offsets[v.id] == offsets[w.id])
              && (offsets[v.id] != offsets[w.id] ==>
                    Apart(offsets'[v.id], SlotSize(v.typ), offsets'[w.id], SlotSize(w.typ)))
  {
    LaidCompacts(f, vs, cross, pinned, lastUses, offsets, cells, base, off, regHome);
    NeverGrows(vs, types, regHome, base, offsets, temps, ids, offsets', temps', frame', off, frame);
    forall v, w | v in vs && w in vs && Survives(v, regHome, offsets) && Survives(w, regHome, offsets)
      ensures offsets'[v.id] == offsets'[w.id] <==> offsets[v.id] == offsets[w.id]
      ensures offsets[v.id] != offsets[w.id] ==> Apart(offsets'[v.id], SlotSize(v.typ), offsets'[w.id], SlotSize(w.typ))
    {
      SurvivorsApart(vs, regHome, base, offsets, offsets', v, w);
    }
  }
}
