/** The frame packed again once some values have moved to registers. */
module CompactFrame {
  import opened Frame

  datatype Value = Value(id: nat, typ: Type)

  /** A slot in the old frame. */
  datatype Slot = Slot(off: nat, size: nat, align: nat)

  // ----- packing -----

  predicate Shaped(slots: seq<Slot>) {
    forall k :: 0 <= k < |slots| ==> IsAlign(slots[k].align)
  }

  predicate Solid(slots: seq<Slot>) {
    Shaped(slots) && forall k :: 0 <= k < |slots| ==> slots[k].size > 0
  }

  /** The first free byte after the first `k` slots; a slot without size takes no room. */
  function PackEnd(slots: seq<Slot>, start: nat, k: nat): (r: nat)
    requires Shaped(slots) && k <= |slots|
    ensures r >= start
  {
    if k == 0 then start
    else if slots[k - 1].size == 0 then PackEnd(slots, start, k - 1)
    else AlignUp(PackEnd(slots, start, k - 1), slots[k - 1].align) + slots[k - 1].size
  }

  /** Where slot `k` goes. */
  function PackAt(slots: seq<Slot>, start: nat, k: nat): nat
    requires Shaped(slots) && k < |slots|
  {
    AlignUp(PackEnd(slots, start, k), slots[k].align)
  }

  /** Packed slots follow each other. */
  lemma {:induction false} PackOrdered(slots: seq<Slot>, start: nat, j: nat, k: nat)
    requires Shaped(slots) && j < k <= |slots| && slots[j].size > 0
    ensures PackAt(slots, start, j) + slots[j].size <= PackEnd(slots, start, k)
    decreases k
  {
    if j < k - 1 {
      PackOrdered(slots, start, j, k - 1);
    }
  }

  /** In a frame laid out in order, with room for alignment. */
  ghost predicate LaidOut(slots: seq<Slot>, start: nat, end: nat) {
    && Solid(slots)
    && (forall k ::
          0 <= k < |slots| ==>
            start <= slots[k].off && Aligned(slots[k].off, slots[k].align) && slots[k].off + slots[k].size <= end)
    && (forall j, k :: 0 <= j < k < |slots| ==> slots[j].off + slots[j].size <= slots[k].off)
  }

  lemma AlignLeast(x: nat, al: nat, y: nat)
    requires IsAlign(al) && x <= y && Aligned(y, al)
    ensures AlignUp(x, al) <= y
  {
  }

  /** Packing moves no slot up. */
  lemma {:induction false} PackShrinks(slots: seq<Slot>, start: nat, end: nat, k: nat)
    requires LaidOut(slots, start, end) && k <= |slots| && start <= end
    ensures PackEnd(slots, start, k) <= end
    ensures k < |slots| ==> PackAt(slots, start, k) <= slots[k].off
    decreases k
  {
    if k > 0 {
      PackShrinks(slots, start, end, k - 1);
    }
    if k < |slots| {
      AlignLeast(PackEnd(slots, start, k), slots[k].align, slots[k].off);
    }
  }

  /** Where slots go depends on their shapes and order only. */
  lemma {:induction false} PackByShape(a: seq<Slot>, b: seq<Slot>, start: nat, k: nat)
    requires Shaped(a) && Shaped(b) && |a| == |b| && k <= |a|
    requires forall i :: 0 <= i < |a| ==> a[i].size == b[i].size && a[i].align == b[i].align
    ensures PackEnd(a, start, k) == PackEnd(b, start, k)
  {
    if k > 0 {
      PackByShape(a, b, start, k - 1);
    }
  }

  // ----- sorting by old offset -----

  function Insert(s: Slot, slots: seq<Slot>): (r: seq<Slot>)
    ensures |r| == |slots| + 1
    ensures forall t :: t in r <==> t == s || t in slots
  {
    if slots == [] || s.off <= slots[0].off then [s] + slots
    else
      assert forall t :: t in slots <==> t == slots[0] || t in slots[1..];
      [slots[0]] + Insert(s, slots[1..])
  }

  function Sort(slots: seq<Slot>): (r: seq<Slot>)
    ensures |r| == |slots|
    ensures forall t :: t in r <==> t in slots
  {
    if slots == [] then []
    else
      assert forall t :: t in slots <==> t == slots[0] || t in slots[1..];
      Insert(slots[0], Sort(slots[1..]))
  }

  ghost predicate Increasing(slots: seq<Slot>) {
    forall j, k :: 0 <= j < k < |slots| ==> slots[j].off < slots[k].off
  }

  ghost predicate DistinctOffs(slots: seq<Slot>) {
    forall j, k :: 0 <= j < k < |slots| ==> slots[j].off != slots[k].off
  }

  lemma {:induction false} InsertIncreasing(s: Slot, slots: seq<Slot>)
    requires Increasing(slots) && forall t :: t in slots ==> t.off != s.off
    ensures Increasing(Insert(s, slots))
  {
    if slots != [] && s.off > slots[0].off {
      InsertIncreasing(s, slots[1..]);
      var rest := Insert(s, slots[1..]);
      forall k | 0 <= k < |rest|
        ensures slots[0].off < rest[k].off
      {
        assert rest[k] in rest;
        if rest[k] != s {
          var i :| 0 <= i < |slots[1..]| && slots[1..][i] == rest[k];
          assert slots[i + 1] == rest[k];
        }
      }
    }
  }

  lemma {:induction false} SortIncreasing(slots: seq<Slot>)
    requires DistinctOffs(slots)
    ensures Increasing(Sort(slots))
  {
    if slots != [] {
      SortIncreasing(slots[1..]);
      InsertIncreasing(slots[0], Sort(slots[1..]));
    }
  }

  // ----- the surviving slots -----

  /** The values that still need their slots. */
  predicate Survives(v: Value, regHome: set<nat>, offsets: map<nat, nat>) {
    v.id !in regHome && SlotSize(v.typ) > 0 && v.id in offsets
  }

  function SlotOf(v: Value, offsets: map<nat, nat>): Slot
    requires v.id in offsets
  {
    Slot(offsets[v.id], SlotSize(v.typ), SlotAlign(v.typ))
  }

  function Offs(slots: seq<Slot>): set<nat> {
    set s | s in slots :: s.off
  }

  /** One slot for every surviving old offset, by its first owner. */
  function Collect(vs: seq<Value>, regHome: set<nat>, offsets: map<nat, nat>): (r: seq<Slot>)
    ensures forall s :: s in r ==> s.size > 0 && IsAlign(s.align)
  {
    if vs == [] then []
    else
      var front := Collect(vs[..|vs| - 1], regHome, offsets);
      var v := vs[|vs| - 1];
      if Survives(v, regHome, offsets) && offsets[v.id] !in Offs(front) then front + [SlotOf(v, offsets)] else front
  }

  lemma {:induction false} CollectDistinct(vs: seq<Value>, regHome: set<nat>, offsets: map<nat, nat>)
    ensures DistinctOffs(Collect(vs, regHome, offsets))
  {
    if vs != [] {
      CollectDistinct(vs[..|vs| - 1], regHome, offsets);
    }
  }

  /** Surviving values that share a slot have the same shape. */
  ghost predicate SharersAlike(vs: seq<Value>, regHome: set<nat>, offsets: map<nat, nat>) {
    forall v, w ::
      v in vs && w in vs && Survives(v, regHome, offsets) && Survives(w, regHome, offsets)
        && offsets[v.id] == offsets[w.id] ==>
      SlotOf(v, offsets) == SlotOf(w, offsets)
  }

  /** `s` is the slot of a surviving value. */
  ghost predicate SlotOfSome(vs: seq<Value>, regHome: set<nat>, offsets: map<nat, nat>, s: Slot) {
    exists v :: v in vs && Survives(v, regHome, offsets) && SlotOf(v, offsets) == s
  }

  lemma {:induction false} CollectedFrom(vs: seq<Value>, regHome: set<nat>, offsets: map<nat, nat>)
    ensures forall s :: s in Collect(vs, regHome, offsets) ==> SlotOfSome(vs, regHome, offsets, s)
  {
    if vs != [] {
      var n := |vs| - 1;
      assert vs == vs[..n] + [vs[n]];
      CollectedFrom(vs[..n], regHome, offsets);
      forall s | s in Collect(vs[..n], regHome, offsets)
        ensures SlotOfSome(vs, regHome, offsets, s)
      {
        var w :| w in vs[..n] && Survives(w, regHome, offsets) && SlotOf(w, offsets) == s;
        assert w in vs;
      }
      assert vs[n] in vs;
    }
  }

  lemma {:induction false} CollectHas(vs: seq<Value>, regHome: set<nat>, offsets: map<nat, nat>, v: Value)
    requires SharersAlike(vs, regHome, offsets) && v in vs && Survives(v, regHome, offsets)
    ensures SlotOf(v, offsets) in Collect(vs, regHome, offsets)
  {
    var n := |vs| - 1;
    assert vs == vs[..n] + [vs[n]];
    if v in vs[..n] {
      CollectHas(vs[..n], regHome, offsets, v);
    } else {
      var front := Collect(vs[..n], regHome, offsets);
      if offsets[v.id] in Offs(front) {
        var s :| s in front && s.off == offsets[v.id];
        CollectedFrom(vs[..n], regHome, offsets);
        var w :| w in vs[..n] && Survives(w, regHome, offsets) && SlotOf(w, offsets) == s;
        assert w in vs;
      }
    }
  }

  /** The surviving slots in order. */
  function Live(vs: seq<Value>, regHome: set<nat>, offsets: map<nat, nat>): seq<Slot> {
    Sort(Collect(vs, regHome, offsets))
  }

  lemma LiveFacts(vs: seq<Value>, regHome: set<nat>, offsets: map<nat, nat>)
    requires SharersAlike(vs, regHome, offsets)
    ensures var slots := Live(vs, regHome, offsets);
            Solid(slots) && Increasing(slots) && forall s :: s in slots <==> SlotOfSome(vs, regHome, offsets, s)
  {
    var slots := Live(vs, regHome, offsets);
    CollectDistinct(vs, regHome, offsets);
    SortIncreasing(Collect(vs, regHome, offsets));
    CollectedFrom(vs, regHome, offsets);
    forall s | SlotOfSome(vs, regHome, offsets, s)
      ensures s in slots
    {
      var v :| v in vs && Survives(v, regHome, offsets) && SlotOf(v, offsets) == s;
      CollectHas(vs, regHome, offsets, v);
    }
    forall k | 0 <= k < |slots|
      ensures slots[k].size > 0 && IsAlign(slots[k].align)
    {
      assert slots[k] in slots;
    }
  }

  /** An increasing list is determined by its members. */
  lemma {:induction false} SortedUnique(a: seq<Slot>, b: seq<Slot>)
    requires Increasing(a) && Increasing(b) && forall s :: s in a <==> s in b
    ensures a == b
  {
    assert a != [] ==> a[0] in a;
    assert b != [] ==> b[0] in b;
    if a != [] {
      FirstLeast(a);
      FirstLeast(b);
      assert a[0] in b && b[0] in a;
      assert a[0] == b[0];
      RestMembers(a);
      RestMembers(b);
      SortedUnique(a[1..], b[1..]);
    }
  }

  lemma FirstLeast(a: seq<Slot>)
    requires Increasing(a) && a != []
    ensures forall s :: s in a ==> s == a[0] || a[0].off < s.off
  {
  }

  lemma RestMembers(a: seq<Slot>)
    requires Increasing(a) && a != []
    ensures forall s :: s in a[1..] <==> s in a && s != a[0]
  {
    assert a == [a[0]] + a[1..];
  }

  // ----- the new offsets -----

  /** `to` gives every offset of a surviving slot its packed place, and 0 to all others. */
  ghost predicate Repacked(slots: seq<Slot>, start: nat, from: map<nat, nat>, to: map<nat, nat>)
    requires Shaped(slots)
  {
    && to.Keys == from.Keys
    && (forall id, k {:trigger PackAt(slots, start, k), from[id]} ::
          id in from && 0 <= k < |slots| && slots[k].off == from[id] ==> to[id] == PackAt(slots, start, k))
    && (forall id :: id in from && from[id] !in Offs(slots) ==> to[id] == 0)
  }

  /** The slots at their new places. */
  function Moved(slots: seq<Slot>, start: nat): (r: seq<Slot>)
    requires Shaped(slots)
    ensures |r| == |slots|
            && forall k {:trigger r[k]} :: 0 <= k < |slots| ==> r[k] == slots[k].(off := PackAt(slots, start, k))
  {
    seq(|slots|, k requires 0 <= k < |slots| => slots[k].(off := PackAt(slots, start, k)))
  }

  /** Slots that are packed already stay. */
  lemma MovedStays(slots: seq<Slot>, start: nat)
    requires Solid(slots)
    ensures Increasing(Moved(slots, start)) && Solid(Moved(slots, start))
    ensures forall k {:trigger PackAt(slots, start, k)} {:trigger PackAt(Moved(slots, start), start, k)} ::
              0 <= k < |slots| ==> PackAt(Moved(slots, start), start, k) == PackAt(slots, start, k)
  {
    var moved := Moved(slots, start);
    forall j, k | 0 <= j < k < |moved|
      ensures moved[j].off < moved[k].off
    {
      PackOrdered(slots, start, j, k);
    }
    forall k | 0 <= k < |slots|
      ensures PackAt(moved, start, k) == PackAt(slots, start, k)
    {
      PackByShape(moved, slots, start, k);
    }
  }

  /** The index of the slot of a surviving value. */
  lemma SlotIndex(vs: seq<Value>, regHome: set<nat>, offsets: map<nat, nat>, v: Value) returns (k: nat)
    requires SharersAlike(vs, regHome, offsets) && v in vs && Survives(v, regHome, offsets)
    ensures var slots := Live(vs, regHome, offsets);
            k < |slots| && slots[k] == SlotOf(v, offsets) && Solid(slots) && Increasing(slots)
  {
    LiveFacts(vs, regHome, offsets);
    assert SlotOfSome(vs, regHome, offsets, SlotOf(v, offsets));
    k :| 0 <= k < |Live(vs, regHome, offsets)| && Live(vs, regHome, offsets)[k] == SlotOf(v, offsets);
  }

  /** Surviving values share a new slot exactly when they shared an old one; otherwise their new slots
      are disjoint.  All are aligned and above the callee area. */
  lemma SurvivorsApart(vs: seq<Value>, regHome: set<nat>, start: nat, from: map<nat, nat>, to: map<nat, nat>, v: Value,
                       w: Value)
    requires SharersAlike(vs, regHome, from) && v in vs && w in vs && Survives(v, regHome, from)
             && Survives(w, regHome, from)
    requires Solid(Live(vs, regHome, from)) && Repacked(Live(vs, regHome, from), start, from, to)
    ensures start <= to[v.id] && Aligned(to[v.id], SlotAlign(v.typ))
    ensures to[v.id] == to[w.id] <==> from[v.id] == from[w.id]
    ensures from[v.id] != from[w.id] ==> Apart(to[v.id], SlotSize(v.typ), to[w.id], SlotSize(w.typ))
  {
    var slots := Live(vs, regHome, from);
    var i := SlotIndex(vs, regHome, from, v);
    var j := SlotIndex(vs, regHome, from, w);
    PackedApart(slots, start, i, j);
    assert to[v.id] == PackAt(slots, start, i) && to[w.id] == PackAt(slots, start, j);
  }

  lemma PackedApart(slots: seq<Slot>, start: nat, i: nat, j: nat)
    requires Solid(slots) && i < |slots| && j < |slots|
    ensures start <= PackAt(slots, start, i) && Aligned(PackAt(slots, start, i), slots[i].align)
    ensures PackAt(slots, start, i) == PackAt(slots, start, j) <==> i == j
    ensures i != j ==> Apart(PackAt(slots, start, i), slots[i].size, PackAt(slots, start, j), slots[j].size)
  {
    if i < j {
      PackOrdered(slots, start, i, j);
    } else if j < i {
      PackOrdered(slots, start, j, i);
    }
  }

  /** Packing the packed frame again changes nothing. */
  lemma RepackedTwice(vs: seq<Value>, regHome: set<nat>, start: nat, a: map<nat, nat>, b: map<nat, nat>,
                      c: map<nat, nat>)
    requires SharersAlike(vs, regHome, a) && SharersAlike(vs, regHome, b)
    requires Solid(Live(vs, regHome, a)) && Repacked(Live(vs, regHome, a), start, a, b)
    requires Solid(Live(vs, regHome, b)) && Repacked(Live(vs, regHome, b), start, b, c)
    ensures c == b && Live(vs, regHome, b) == Moved(Live(vs, regHome, a), start)
  {
    LiveIsMoved(vs, regHome, start, a, b);
    RepackedStays(Live(vs, regHome, a), start, a, b, c);
  }

  lemma RepackedStays(slots: seq<Slot>, start: nat, a: map<nat, nat>, b: map<nat, nat>, c: map<nat, nat>)
    requires Solid(slots) && Repacked(slots, start, a, b)
    requires Solid(Moved(slots, start)) && Repacked(Moved(slots, start), start, b, c)
    ensures c == b
  {
    var moved := Moved(slots, start);
    MovedStays(slots, start);
    forall id | id in b
      ensures c[id] == b[id]
    {
      if a[id] in Offs(slots) {
        var k :| 0 <= k < |slots| && slots[k].off == a[id];
        assert moved[k].off == b[id];
      } else if b[id] in Offs(moved) {
        var k :| 0 <= k < |moved| && moved[k].off == b[id];
        assert c[id] == PackAt(moved, start, k);
      }
    }
  }

  lemma LiveIsMoved(vs: seq<Value>, regHome: set<nat>, start: nat, a: map<nat, nat>, b: map<nat, nat>)
    requires SharersAlike(vs, regHome, a) && SharersAlike(vs, regHome, b)
    requires Solid(Live(vs, regHome, a)) && Repacked(Live(vs, regHome, a), start, a, b)
    ensures Live(vs, regHome, b) == Moved(Live(vs, regHome, a), start)
  {
    var slots := Live(vs, regHome, a);
    var moved := Moved(slots, start);
    LiveFacts(vs, regHome, a);
    LiveFacts(vs, regHome, b);
    MovedStays(slots, start);
    forall s | s in Live(vs, regHome, b)
      ensures s in moved
    {
      var v :| v in vs && Survives(v, regHome, b) && SlotOf(v, b) == s;
      var k := SlotIndex(vs, regHome, a, v);
      assert moved[k] == s;
    }
    forall s | s in moved
      ensures s in Live(vs, regHome, b)
    {
      var k :| 0 <= k < |moved| && moved[k] == s;
      assert slots[k] in slots;
      var v :| v in vs && Survives(v, regHome, a) && SlotOf(v, a) == slots[k];
      assert SlotOf(v, b) == s;
      assert SlotOfSome(vs, regHome, b, s);
    }
    SortedUnique(Live(vs, regHome, b), moved);
  }

  /** Sharers still have one shape after packing. */
  lemma SharersStayAlike(vs: seq<Value>, regHome: set<nat>, start: nat, a: map<nat, nat>, b: map<nat, nat>)
    requires SharersAlike(vs, regHome, a) && Solid(Live(vs, regHome, a)) && Repacked(Live(vs, regHome, a), start, a, b)
    ensures SharersAlike(vs, regHome, b)
  {
    forall v, w | v in vs && w in vs && Survives(v, regHome, b) && Survives(w, regHome, b) && b[v.id] == b[w.id]
      ensures SlotOf(v, b) == SlotOf(w, b)
    {
      SurvivorsApart(vs, regHome, start, a, b, v, w);
    }
  }

  // ----- staging temporaries of phis -----

  /** The temporaries in the order `ids`; `types` gives the type of every phi. */
  function TempSlots(ids: seq<nat>, temps: map<nat, nat>, types: map<nat, Type>): (r: seq<Slot>)
    requires forall id :: id in ids ==> id in temps
    ensures Shaped(r) && |r| == |ids| && forall k :: 0 <= k < |ids| ==> r[k] == TempSlot(ids[k], temps, types)
  {
    if ids == [] then [] else TempSlots(ids[..|ids| - 1], temps, types) + [TempSlot(ids[|ids| - 1], temps, types)]
  }

  function TypeOf(types: map<nat, Type>, id: nat): Type {
    if id in types then types[id] else NoSlot
  }

  function TempSlot(id: nat, temps: map<nat, nat>, types: map<nat, Type>): Slot
    requires id in temps
  {
    Slot(temps[id], SlotSize(TypeOf(types, id)), SlotAlign(TypeOf(types, id)))
  }

  /** All temporaries once, by ascending offset. */
  ghost predicate InOrder(ids: seq<nat>, temps: map<nat, nat>) {
    && (forall id :: id in ids <==> id in temps)
    && (forall j, k :: 0 <= j < k < |ids| ==> ids[j] != ids[k] && temps[ids[j]] <= temps[ids[k]])
  }

  /** The temporaries packed in order from `start`; those without a slot stay. */
  ghost predicate TempsRepacked(ids: seq<nat>, types: map<nat, Type>, start: nat, from: map<nat, nat>,
                                to: map<nat, nat>) {
    && InOrder(ids, from) && to.Keys == from.Keys
    && forall k {:trigger PackAt(TempSlots(ids, from, types), start, k)} :: 0 <= k < |ids| ==>
         to[ids[k]] == if SlotSize(TypeOf(types, ids[k])) == 0 then from[ids[k]]
                       else PackAt(TempSlots(ids, from, types), start, k)
  }

  function InsertId(id: nat, ids: seq<nat>, temps: map<nat, nat>): (r: seq<nat>)
    requires id in temps && forall x :: x in ids ==> x in temps
    ensures |r| == |ids| + 1 && forall x :: x in r <==> x == id || x in ids
  {
    if ids == [] || temps[id] <= temps[ids[0]] then [id] + ids
    else
      assert forall x :: x in ids <==> x == ids[0] || x in ids[1..];
      [ids[0]] + InsertId(id, ids[1..], temps)
  }

  ghost predicate Ascends(ids: seq<nat>, temps: map<nat, nat>)
    requires forall x :: x in ids ==> x in temps
  {
    forall j, k :: 0 <= j < k < |ids| ==> ids[j] != ids[k] && temps[ids[j]] <= temps[ids[k]]
  }

  lemma {:induction false} InsertIdAscends(id: nat, ids: seq<nat>, temps: map<nat, nat>)
    requires id in temps && id !in ids && (forall x :: x in ids ==> x in temps) && Ascends(ids, temps)
    ensures Ascends(InsertId(id, ids, temps), temps)
  {
    if ids != [] && temps[id] > temps[ids[0]] {
      InsertIdAscends(id, ids[1..], temps);
      var rest := InsertId(id, ids[1..], temps);
      forall k | 0 <= k < |rest|
        ensures ids[0] != rest[k] && temps[ids[0]] <= temps[rest[k]]
      {
        assert rest[k] in rest;
        if rest[k] != id {
          var i :| 0 <= i < |ids[1..]| && ids[1..][i] == rest[k];
          assert ids[i + 1] == rest[k];
        }
      }
    }
  }

  /** The identifiers of the temporaries by ascending offset, however the map is walked. */
  method SortedTemps(temps: map<nat, nat>) returns (ids: seq<nat>)
    ensures InOrder(ids, temps)
  {
    ids := [];
    var todo := temps.Keys;
    while todo != {}
      invariant todo <= temps.Keys && (forall x :: x in ids <==> x in temps && x !in todo) && Ascends(ids, temps)
      decreases todo
    {
      var id :| id in todo;
      InsertIdAscends(id, ids, temps);
      ids := InsertId(id, ids, temps);
      todo := todo - {id};
    }
  }

  /** Temporaries end up above `start`, aligned and apart. */
  lemma TempsApart(ids: seq<nat>, types: map<nat, Type>, start: nat, from: map<nat, nat>, to: map<nat, nat>, j: nat,
                   k: nat)
    requires TempsRepacked(ids, types, start, from, to) && Solid(TempSlots(ids, from, types)) && j < |ids| && k < |ids|
    ensures start <= to[ids[j]] && Aligned(to[ids[j]], SlotAlign(TypeOf(types, ids[j])))
    ensures j != k ==> Apart(to[ids[j]], SlotSize(TypeOf(types, ids[j])), to[ids[k]], SlotSize(TypeOf(types, ids[k])))
  {
    var slots := TempSlots(ids, from, types);
    assert slots[j].size > 0 && slots[k].size > 0;
    PackedApart(slots, start, j, k);
  }

  /** Packing packed temporaries again changes nothing. */
  lemma TempsTwice(ids: seq<nat>, ids2: seq<nat>, types: map<nat, Type>, start: nat, a: map<nat, nat>, b: map<nat, nat>,
                   c: map<nat, nat>)
    requires TempsRepacked(ids, types, start, a, b) && TempsRepacked(ids2, types, start, b, c)
             && Solid(TempSlots(ids, a, types))
    ensures c == b
    ensures Solid(TempSlots(ids2, b, types))
            && PackEnd(TempSlots(ids2, b, types), start, |ids2|) == PackEnd(TempSlots(ids, a, types), start, |ids|)
  {
    var slots := TempSlots(ids, a, types);
    MovedStays(slots, start);
    TempsAreMoved(ids, ids2, types, start, a, b);
    SameEnd(slots, start);
    forall id | id in b
      ensures c[id] == b[id]
    {
      assert id in ids2;
      var k :| 0 <= k < |ids2| && ids2[k] == id;
      TempStays(ids2, types, start, b, c, slots, k);
    }
  }

  lemma SameEnd(slots: seq<Slot>, start: nat)
    requires Solid(slots)
    ensures PackEnd(Moved(slots, start), start, |slots|) == PackEnd(slots, start, |slots|)
  {
    PackByShape(Moved(slots, start), slots, start, |slots|);
  }

  lemma TempStays(ids2: seq<nat>, types: map<nat, Type>, start: nat, b: map<nat, nat>, c: map<nat, nat>,
                  slots: seq<Slot>, k: nat)
    requires TempsRepacked(ids2, types, start, b, c) && Solid(slots)
             && TempSlots(ids2, b, types) == Moved(slots, start) && k < |ids2|
    ensures ids2[k] in b && c[ids2[k]] == b[ids2[k]]
  {
    MovedStays(slots, start);
    assert ids2[k] in ids2;
    assert TempSlots(ids2, b, types)[k] == Moved(slots, start)[k];
  }

  lemma TempIsMoved(ids: seq<nat>, types: map<nat, Type>, start: nat, a: map<nat, nat>, b: map<nat, nat>, k: nat)
    requires TempsRepacked(ids, types, start, a, b) && Solid(TempSlots(ids, a, types)) && k < |ids|
    ensures ids[k] in b && Moved(TempSlots(ids, a, types), start)[k] == TempSlot(ids[k], b, types)
  {
    assert ids[k] in ids;
    assert TempSlots(ids, a, types)[k].size > 0;
  }

  /** Packed temporaries have different offsets. */
  lemma TempsDistinct(ids: seq<nat>, types: map<nat, Type>, start: nat, a: map<nat, nat>, b: map<nat, nat>, x: nat,
                      y: nat)
    requires TempsRepacked(ids, types, start, a, b) && Solid(TempSlots(ids, a, types)) && x in b && y in b && x != y
    ensures b[x] != b[y]
  {
    assert x in ids && y in ids;
    var j :| 0 <= j < |ids| && ids[j] == x;
    var k :| 0 <= k < |ids| && ids[k] == y;
    TempIsMoved(ids, types, start, a, b, j);
    TempIsMoved(ids, types, start, a, b, k);
    PackedApart(TempSlots(ids, a, types), start, j, k);
  }

  lemma TempsAreMoved(ids: seq<nat>, ids2: seq<nat>, types: map<nat, Type>, start: nat, a: map<nat, nat>,
                      b: map<nat, nat>)
    requires TempsRepacked(ids, types, start, a, b) && InOrder(ids2, b) && Solid(TempSlots(ids, a, types))
    ensures TempSlots(ids2, b, types) == Moved(TempSlots(ids, a, types), start)
  {
    var slots, slots2 := TempSlots(ids, a, types), TempSlots(ids2, b, types);
    var moved := Moved(slots, start);
    MovedStays(slots, start);
    forall j, k | 0 <= j < k < |slots2|
      ensures slots2[j].off < slots2[k].off
    {
      assert ids2[j] in ids2 && ids2[k] in ids2;
      TempsDistinct(ids, types, start, a, b, ids2[j], ids2[k]);
    }
    forall s | s in slots2
      ensures s in moved
    {
      var j :| 0 <= j < |slots2| && slots2[j] == s;
      assert ids2[j] in ids2 && ids2[j] in ids;
      var x :| 0 <= x < |ids| && ids[x] == ids2[j];
      TempIsMoved(ids, types, start, a, b, x);
    }
    forall s | s in moved
      ensures s in slots2
    {
      var k :| 0 <= k < |moved| && moved[k] == s;
      TempIsMoved(ids, types, start, a, b, k);
      assert ids[k] in ids2;
      var x :| 0 <= x < |ids2| && ids2[x] == ids[k];
      assert slots2[x] == s;
    }
    SortedUnique(slots2, moved);
  }

  // ----- the pass -----

  /** The frame before and after: surviving slots packed from the callee area on, temporaries behind them. */
  ghost predicate Compacted(vs: seq<Value>, types: map<nat, Type>, regHome: set<nat>, calleeArea: nat,
                            offsets: map<nat, nat>, temps: map<nat, nat>, ids: seq<nat>,
                            offsets': map<nat, nat>, temps': map<nat, nat>, frame': nat) {
    var slots := Live(vs, regHome, offsets);
    && Solid(slots) && Repacked(slots, calleeArea, offsets, offsets')
    && TempsRepacked(ids, types, PackEnd(slots, calleeArea, |slots|), temps, temps')
    && frame' == AlignUp(PackEnd(TempSlots(ids, temps, types), PackEnd(slots, calleeArea, |slots|), |ids|), 8)
  }

  lemma CompactedFrom(vs: seq<Value>, types: map<nat, Type>, regHome: set<nat>, calleeArea: nat,
                      offsets: map<nat, nat>, temps: map<nat, nat>, ids: seq<nat>,
                      offsets': map<nat, nat>, temps': map<nat, nat>, frame': nat, slots: seq<Slot>, mid: nat)
    requires slots == Live(vs, regHome, offsets) && Solid(slots) && Repacked(slots, calleeArea, offsets, offsets')
    requires mid == PackEnd(slots, calleeArea, |slots|) && TempsRepacked(ids, types, mid, temps, temps')
    requires frame' == AlignUp(PackEnd(TempSlots(ids, temps, types), mid, |ids|), 8)
    ensures Compacted(vs, types, regHome, calleeArea, offsets, temps, ids, offsets', temps', frame')
  {
  }

  /** The frame never grows, if slots and temporaries lay in order below its end. */
  lemma NeverGrows(vs: seq<Value>, types: map<nat, Type>, regHome: set<nat>, calleeArea: nat, offsets: map<nat, nat>,
                   temps: map<nat, nat>, ids: seq<nat>, offsets': map<nat, nat>, temps': map<nat, nat>, frame': nat,
                   top: nat, frame: nat)
    requires Compacted(vs, types, regHome, calleeArea, offsets, temps, ids, offsets', temps', frame')
    requires LaidOut(Live(vs, regHome, offsets), calleeArea, top) && calleeArea <= top
    requires LaidOut(TempSlots(ids, temps, types), top, frame) && top <= frame && frame % 8 == 0
    ensures frame' <= frame
  {
    var slots, staged := Live(vs, regHome, offsets), TempSlots(ids, temps, types);
    PackShrinks(slots, calleeArea, top, |slots|);
    PackShrinks(staged, PackEnd(slots, calleeArea, |slots|), frame, |ids|);
    AlignLeast(PackEnd(staged, PackEnd(slots, calleeArea, |slots|), |ids|), 8, frame);
  }

  /** Surviving slots end where the temporaries begin. */
  lemma SurvivorsBelowTemps(vs: seq<Value>, regHome: set<nat>, start: nat, from: map<nat, nat>, to: map<nat, nat>,
                            v: Value)
    requires SharersAlike(vs, regHome, from) && v in vs && Survives(v, regHome, from)
    requires Solid(Live(vs, regHome, from)) && Repacked(Live(vs, regHome, from), start, from, to)
    ensures to[v.id] + SlotSize(v.typ) <= PackEnd(Live(vs, regHome, from), start, |Live(vs, regHome, from)|)
  {
    var slots := Live(vs, regHome, from);
    var k := SlotIndex(vs, regHome, from, v);
    PackOrdered(slots, start, k, |slots|);
  }

  /** Running the pass twice is running it once. */
  lemma CompactTwice(vs: seq<Value>, types: map<nat, Type>, regHome: set<nat>, calleeArea: nat, offsets: map<nat, nat>,
                     temps: map<nat, nat>, ids: seq<nat>, offsets': map<nat, nat>, temps': map<nat, nat>, frame': nat,
                     ids2: seq<nat>, offsets'': map<nat, nat>, temps'': map<nat, nat>, frame'': nat)
    requires SharersAlike(vs, regHome, offsets)
    requires Compacted(vs, types, regHome, calleeArea, offsets, temps, ids, offsets', temps', frame')
    requires Compacted(vs, types, regHome, calleeArea, offsets', temps', ids2, offsets'', temps'', frame'')
    requires Solid(TempSlots(ids, temps, types))
    ensures offsets'' == offsets' && temps'' == temps' && frame'' == frame'
  {
    var slots := Live(vs, regHome, offsets);
    SharersStayAlike(vs, regHome, calleeArea, offsets, offsets');
    RepackedTwice(vs, regHome, calleeArea, offsets, offsets', offsets'');
    SameEnd(slots, calleeArea);
    TempsTwice(ids, ids2, types, PackEnd(slots, calleeArea, |slots|), temps, temps', temps'');
  }

  /** The new places of the first `k` slots by old offset. */
  ghost predicate MapTo(slots: seq<Slot>, start: nat, m: map<nat, nat>, k: nat)
    requires Shaped(slots) && k <= |slots|
  {
    m.Keys == Offs(slots[..k])
    && forall j {:trigger PackAt(slots, start, j)} ::
         0 <= j < k ==> slots[j].off in m && m[slots[j].off] == PackAt(slots, start, j)
  }

  lemma MapStep(slots: seq<Slot>, start: nat, m: map<nat, nat>, k: nat)
    requires Solid(slots) && Increasing(slots) && k < |slots| && MapTo(slots, start, m, k)
    ensures MapTo(slots, start, m[slots[k].off := PackAt(slots, start, k)], k + 1)
  {
    assert slots[..k + 1] == slots[..k] + [slots[k]];
    assert Offs(slots[..k + 1]) == Offs(slots[..k]) + {slots[k].off};
  }

  lemma RepackedByMap(slots: seq<Slot>, start: nat, m: map<nat, nat>, from: map<nat, nat>, to: map<nat, nat>)
    requires Solid(slots) && MapTo(slots, start, m, |slots|)
    requires to == map id | id in from :: if from[id] in m then m[from[id]] else 0
    ensures Repacked(slots, start, from, to)
  {
    assert slots[..|slots|] == slots;
    forall id, k | id in from && 0 <= k < |slots| && slots[k].off == from[id]
      ensures to[id] == PackAt(slots, start, k)
    {
      assert m[slots[k].off] == PackAt(slots, start, k);
    }
  }

  lemma TempsByMoves(ids: seq<nat>, types: map<nat, Type>, start: nat, from: map<nat, nat>, to: map<nat, nat>)
    requires InOrder(ids, from) && MovedTemps(ids, TempSlots(ids, from, types), start, from, to, |ids|)
    ensures TempsRepacked(ids, types, start, from, to)
  {
    var slots := TempSlots(ids, from, types);
    forall k | 0 <= k < |ids|
      ensures to[ids[k]] == if SlotSize(TypeOf(types, ids[k])) == 0 then from[ids[k]] else PackAt(slots, start, k)
    {
      assert slots[k] == TempSlot(ids[k], from, types);
      var place := PackAt(slots, start, k);
      assert to[ids[k]] == if slots[k].size == 0 then from[ids[k]] else place;
    }
  }

  /** The first `k` temporaries have moved. */
  ghost predicate MovedTemps(ids: seq<nat>, slots: seq<Slot>, start: nat, from: map<nat, nat>, to: map<nat, nat>,
                             k: nat)
    requires Shaped(slots) && |slots| == |ids| && k <= |ids|
  {
    && to.Keys == from.Keys && (forall j :: 0 <= j < |ids| ==> ids[j] in from)
    && (forall j :: k <= j < |ids| ==> to[ids[j]] == from[ids[j]])
    && (forall j {:trigger PackAt(slots, start, j)} ::
          0 <= j < k ==> to[ids[j]] == if slots[j].size == 0 then from[ids[j]] else PackAt(slots, start, j))
  }

  lemma MovedTempsStep(ids: seq<nat>, slots: seq<Slot>, start: nat, from: map<nat, nat>, to: map<nat, nat>, k: nat)
    requires Shaped(slots) && |slots| == |ids| && k < |ids| && MovedTemps(ids, slots, start, from, to, k)
    requires forall i, j :: 0 <= i < j < |ids| ==> ids[i] != ids[j]
    ensures slots[k].size == 0 ==> MovedTemps(ids, slots, start, from, to, k + 1)
    ensures slots[k].size > 0 ==> MovedTemps(ids, slots, start, from, to[ids[k] := PackAt(slots, start, k)], k + 1)
  {
  }

  class FramePlan {
    var offsets: map<nat, nat>
    var phiTemp: map<nat, nat>
    var frameSize: nat
    var calleeArea: nat
    var regHome: set<nat>

    /** The surviving slots, one for each old offset. */
    method CollectSlots(vs: seq<Value>) returns (slots: seq<Slot>)
      ensures slots == Collect(vs, regHome, offsets)
    {
      slots := [];
      var seenOff: set<nat> := {};
      for i := 0 to |vs|
        invariant slots == Collect(vs[..i], regHome, offsets) && seenOff == Offs(slots)
      {
        assert vs[..i + 1][..i] == vs[..i];
        var v := vs[i];
        if v.id in regHome || SlotSize(v.typ) == 0 || v.id !in offsets {
          continue;
        }
        var off := offsets[v.id];
        if off in seenOff {
          continue;
        }
        seenOff := seenOff + {off};
        slots := slots + [Slot(off, SlotSize(v.typ), SlotAlign(v.typ))];
      }
      assert vs[..|vs|] == vs;
    }

    /** Gives the surviving slots their new places; returns the first byte behind them. */
    method MoveSlots(slots: seq<Slot>) returns (newOff: nat)
      requires Solid(slots) && Increasing(slots)
      modifies this`offsets
      ensures Repacked(slots, calleeArea, old(offsets), offsets) && newOff == PackEnd(slots, calleeArea, |slots|)
    {
      var oldToNew: map<nat, nat> := map[];
      newOff := calleeArea;
      for k := 0 to |slots|
        invariant newOff == PackEnd(slots, calleeArea, k) && MapTo(slots, calleeArea, oldToNew, k)
        invariant offsets == old(offsets)
      {
        newOff := AlignUp(newOff, slots[k].align);
        MapStep(slots, calleeArea, oldToNew, k);
        oldToNew := oldToNew[slots[k].off := newOff];
        newOff := newOff + slots[k].size;
      }
      offsets := map id | id in offsets :: if offsets[id] in oldToNew then oldToNew[offsets[id]] else 0;
      RepackedByMap(slots, calleeArea, oldToNew, old(offsets), offsets);
    }

    /** Moves the temporaries behind `start`; returns the first byte behind them. */
    method MoveTemps(types: map<nat, Type>, start: nat) returns (newOff: nat, ghost sorted: seq<nat>)
      modifies this`phiTemp
      ensures TempsRepacked(sorted, types, start, old(phiTemp), phiTemp)
      ensures newOff == PackEnd(TempSlots(sorted, old(phiTemp), types), start, |sorted|)
    {
      var ids := SortedTemps(phiTemp);
      sorted, newOff := ids, start;
      ghost var slots := TempSlots(ids, phiTemp, types);
      forall j | 0 <= j < |ids|
        ensures ids[j] in phiTemp
      {
        assert ids[j] in ids;
      }
      for k := 0 to |ids|
        invariant newOff == PackEnd(slots, start, k) && MovedTemps(ids, slots, start, old(phiTemp), phiTemp, k)
      {
        MovedTempsStep(ids, slots, start, old(phiTemp), phiTemp, k);
        var t := TypeOf(types, ids[k]);
        if SlotSize(t) == 0 {
          continue;
        }
        newOff := AlignUp(newOff, SlotAlign(t));
        phiTemp := phiTemp[ids[k] := newOff];
        newOff := newOff + SlotSize(t);
      }
      TempsByMoves(ids, types, start, old(phiTemp), phiTemp);
    }

    /** The whole pass. */
    method Compact(vs: seq<Value>, types: map<nat, Type>) returns (ghost ids: seq<nat>)
      requires SharersAlike(vs, regHome, offsets)
      modifies this`offsets, this`phiTemp, this`frameSize
      ensures Compacted(vs, types, regHome, calleeArea, old(offsets), old(phiTemp), ids, offsets, phiTemp, frameSize)
    {
      LiveFacts(vs, regHome, offsets);
      var slots := CollectSlots(vs);
      slots := Sort(slots);
      var newOff := MoveSlots(slots);
      ghost var mid := newOff;
      newOff, ids := MoveTemps(types, newOff);
      frameSize := AlignUp(newOff, 8);
      CompactedFrom(vs, types, regHome, calleeArea, old(offsets), old(phiTemp), ids, offsets, phiTemp,
                    frameSize, slots, mid);
    }
  }
}
