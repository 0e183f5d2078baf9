/** Statements between the members of a fused window, moved ahead of it. */
module HoistInterveners {
  import opened Basics
  import opened Reorder

  /** A window candidate: the statements since the previous one, its own statement, and the names
      its parameter expressions read.  A store assigns no variable. */
  datatype Cand = Cand(inter: seq<Stmt<string>>, s: Stmt<string>, params: set<string>)

  /** Interveners assign one variable and write no memory; candidates read their parameters and
      earlier candidates, and write memory only as stores. */
  ghost predicate WellFormed(cands: seq<Cand>) {
    && (forall k, j :: 0 <= k < |cands| && 0 <= j < |cands[k].inter| ==>
          cands[k].inter[j].defines.Some? && !cands[k].inter[j].writesMem)
    && (forall k :: 0 <= k < |cands| ==> (cands[k].s.writesMem <==> cands[k].s.defines.None?))
    && (forall k, x :: 0 <= k < |cands| && x in cands[k].s.uses ==>
          x in cands[k].params || AssignedBefore(cands, k, x))
  }

  ghost predicate AssignedBefore(cands: seq<Cand>, k: nat, x: string)
    requires k <= |cands|
  {
    exists c :: 0 <= c < k && cands[c].s.defines == Some(x)
  }

  /** The statements of a window in their original order. */
  ghost function Window(cands: seq<Cand>): seq<Item<string>> {
    if cands == [] then []
    else
      var n := |cands| - 1;
      Window(cands[..n]) + Early(cands[n].inter) + [Item(false, cands[n].s)]
  }

  ghost function Early(ss: seq<Stmt<string>>): seq<Item<string>> {
    seq(|ss|, j requires 0 <= j < |ss| => Item(true, ss[j]))
  }

  // ----- the checks -----

  /** Moving `st` ahead of candidate `c` would be seen. */
  predicate Interferes(st: Stmt<string>, c: Cand) {
    || (st.defines.Some? && st.defines.value in c.params)
    || (st.defines.Some? && c.s.defines == st.defines)
    || (c.s.defines.Some? && c.s.defines.value in st.uses)
  }

  /** No intervener interferes with a candidate before it, nor reads memory after a store. */
  ghost predicate Free(cands: seq<Cand>) {
    forall k, j, c :: 0 <= c < k < |cands| && 0 <= j < |cands[k].inter| ==> MayPass(cands[k].inter[j], cands[c])
  }

  predicate MayPass(st: Stmt<string>, c: Cand) {
    !Interferes(st, c) && !(c.s.defines.None? && st.readsMem)
  }

  /** The interveners, and which candidate each precedes. */
  ghost predicate Gathered(cands: seq<Cand>, n: nat, inter: seq<Stmt<string>>, slots: seq<nat>)
    requires n <= |cands|
  {
    && |slots| == |inter|
    && (forall i :: 0 <= i < |inter| ==> slots[i] < n && inter[i] in cands[slots[i]].inter)
    && (forall k, j :: 0 <= k < n && 0 <= j < |cands[k].inter| ==>
          Listed(inter, slots, cands[k].inter[j], k))
  }

  ghost predicate Listed(inter: seq<Stmt<string>>, slots: seq<nat>, st: Stmt<string>, k: nat)
    requires |slots| == |inter|
  {
    exists i :: 0 <= i < |inter| && inter[i] == st && slots[i] == k
  }

  method Gather(cands: seq<Cand>) returns (inter: seq<Stmt<string>>, slots: seq<nat>)
    ensures Gathered(cands, |cands|, inter, slots)
  {
    inter, slots := [], [];
    for k := 0 to |cands|
      invariant Gathered(cands, k, inter, slots)
    {
      ghost var i0, s0 := inter, slots;
      inter := inter + cands[k].inter;
      slots := slots + seq(|cands[k].inter|, _ => k);
      forall c, j | 0 <= c < k + 1 && 0 <= j < |cands[c].inter|
        ensures Listed(inter, slots, cands[c].inter[j], c)
      {
        if c < k {
          assert Listed(i0, s0, cands[c].inter[j], c);
          var i :| 0 <= i < |i0| && i0[i] == cands[c].inter[j] && s0[i] == c;
          assert inter[i] == i0[i] && slots[i] == s0[i];
        } else {
          assert inter[|i0| + j] == cands[k].inter[j] && slots[|i0| + j] == k;
        }
      }
    }
  }

  /** A memory read must not move across a store. */
  method StoresUncrossed(cands: seq<Cand>, inter: seq<Stmt<string>>, slots: seq<nat>) returns (ok: bool)
    requires |slots| == |inter|
    ensures ok <==>
              forall i, c ::
                0 <= i < |inter| && 0 <= c < slots[i] && c < |cands| && cands[c].s.defines.None? ==> !inter[i].readsMem
  {
    var firstStore := 0;
    while firstStore < |cands| && cands[firstStore].s.defines.Some?
      invariant firstStore <= |cands| && forall c :: 0 <= c < firstStore ==> cands[c].s.defines.Some?
    {
      firstStore := firstStore + 1;
    }
    if firstStore == |cands| {
      return true;
    }
    for i := 0 to |inter|
      invariant forall x, c ::
                  0 <= x < i && 0 <= c < slots[x] && c < |cands| && cands[c].s.defines.None? ==> !inter[x].readsMem
    {
      if slots[i] > firstStore && inter[i].readsMem {
        assert cands[firstStore].s.defines.None?;
        return false;
      }
    }
    ok := true;
  }

  /** The positional check on names. */
  method FuseInterferenceFree(cands: seq<Cand>, inter: seq<Stmt<string>>, slots: seq<nat>) returns (ok: bool)
    requires |slots| == |inter| && forall i :: 0 <= i < |slots| ==> slots[i] <= |cands|
    ensures ok <==> forall i, c :: 0 <= i < |inter| && 0 <= c < slots[i] ==> !Interferes(inter[i], cands[c])
  {
    for i := 0 to |inter|
      invariant forall x, c :: 0 <= x < i && 0 <= c < slots[x] ==> !Interferes(inter[x], cands[c])
    {
      for c := 0 to slots[i]
        invariant forall d :: 0 <= d < c ==> !Interferes(inter[i], cands[d])
      {
        if Interferes(inter[i], cands[c]) {
          return false;
        }
      }
    }
    ok := true;
  }

  /** May every intervener move ahead of the whole window? */
  method MayHoist(cands: seq<Cand>) returns (ok: bool)
    ensures ok <==> Free(cands)
  {
    var inter, slots := Gather(cands);
    var stores := StoresUncrossed(cands, inter, slots);
    var names := FuseInterferenceFree(cands, inter, slots);
    ok := stores && names;
    GatheredAll(cands, inter, slots);
  }

  lemma GatheredAll(cands: seq<Cand>, inter: seq<Stmt<string>>, slots: seq<nat>)
    requires Gathered(cands, |cands|, inter, slots)
    ensures Free(cands) <==> forall i, c :: 0 <= i < |inter| && 0 <= c < slots[i] ==> MayPass(inter[i], cands[c])
  {
    if forall i, c :: 0 <= i < |inter| && 0 <= c < slots[i] ==> MayPass(inter[i], cands[c]) {
      forall k, j, c | 0 <= c < k < |cands| && 0 <= j < |cands[k].inter|
        ensures MayPass(cands[k].inter[j], cands[c])
      {
        assert Listed(inter, slots, cands[k].inter[j], k);
        var i :| 0 <= i < |inter| && inter[i] == cands[k].inter[j] && slots[i] == k;
      }
    }
    if Free(cands) {
      forall i, c | 0 <= i < |inter| && 0 <= c < slots[i]
        ensures MayPass(inter[i], cands[c])
      {
        var j :| 0 <= j < |cands[slots[i]].inter| && cands[slots[i]].inter[j] == inter[i];
      }
    }
  }

  // ----- accepted windows keep their meaning -----

  lemma PassIsIndependent(cands: seq<Cand>, k: nat, j: nat, c: nat)
    requires WellFormed(cands) && Free(cands) && c < k < |cands| && j < |cands[k].inter|
    ensures Independent(cands[c].s, cands[k].inter[j])
  {
    var st := cands[k].inter[j];
    assert MayPass(st, cands[c]) && st.defines.Some? && !st.writesMem;
    forall d | 0 <= d < k
      ensures cands[d].s.defines != st.defines
    {
      assert MayPass(st, cands[d]);
    }
    assert !AssignedBefore(cands, c, st.defines.value);
  }

  lemma PrefixFine(cands: seq<Cand>)
    requires WellFormed(cands) && Free(cands) && cands != []
    ensures WellFormed(cands[..|cands| - 1]) && Free(cands[..|cands| - 1])
  {
    var front := cands[..|cands| - 1];
    forall k, x | 0 <= k < |front| && x in front[k].s.uses
      ensures x in front[k].params || AssignedBefore(front, k, x)
    {
      assert front[k] == cands[k];
      if AssignedBefore(cands, k, x) {
        var c :| 0 <= c < k && cands[c].s.defines == Some(x);
        assert front[c].s.defines == Some(x);
      }
    }
    forall k, j, c | 0 <= c < k < |front| && 0 <= j < |front[k].inter|
      ensures MayPass(front[k].inter[j], front[c])
    {
      assert MayPass(cands[k].inter[j], cands[c]);
    }
  }

  /** Late items of a window are its candidates. */
  lemma {:induction false} LateIsCand(cands: seq<Cand>, i: nat) returns (c: nat)
    requires i < |Window(cands)| && !Window(cands)[i].early
    ensures c < |cands| && Window(cands)[i].s == cands[c].s
  {
    var n := |cands| - 1;
    var front := Window(cands[..n]);
    if i < |front| {
      c := LateIsCand(cands[..n], i);
    } else {
      c := n;
    }
  }

  lemma {:induction false} WindowOvertakes(cands: seq<Cand>)
    requires WellFormed(cands) && Free(cands)
    ensures MayOvertake(Window(cands))
  {
    if cands != [] {
      var n := |cands| - 1;
      var front := Window(cands[..n]);
      PrefixFine(cands);
      WindowOvertakes(cands[..n]);
      var items := Window(cands);
      forall i, j | 0 <= i < j < |items| && !items[i].early && items[j].early
        ensures Independent(items[i].s, items[j].s)
      {
        if j < |front| {
          assert items[i] == front[i] && items[j] == front[j];
        } else {
          assert i < |front|;
          var c := LateIsCand(cands[..n], i);
          assert items[i] == front[i];
          PassIsIndependent(cands, n, j - |front|, c);
        }
      }
    }
  }

  /** Hoisting every intervener of an accepted window leaves every variable and all memory as in
      the original statement order. */
  lemma HoistKeepsMeaning<M>(sem: Sem<string, M>, cands: seq<Cand>, st: State<string, M>)
    requires Total(st) && WellFormed(cands) && Free(cands)
    ensures ExecAll(sem, Pick(Window(cands), true) + Pick(Window(cands), false), st)
            == ExecAll(sem, All(Window(cands)), st)
  {
    WindowOvertakes(cands);
    EarlyFirst(sem, Window(cands), st);
  }
}
