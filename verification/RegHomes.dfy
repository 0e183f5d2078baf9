/** Register homes over a whole function: the scan of every block, then the overrides of the cross-block allocator. */
module RegHomes {
  import opened Basics
  import opened LinearScan

  /** Registers the overrides may use, and those kept for loop carries. */
  const CompatPool: seq<Reg> := ["DI", "R8", "R9", "R10", "X2", "X3", "X4", "X5", "X6", "X7"]
  const CarryPool: seq<Reg> := ["R12", "R13", "R15"]

  /** The pools of amd64 and of arm64. */
  const AmdPools: Pools := Pools(
    ["DI", "R8", "R9", "R10", "R11", "R12", "R13", "R15"],
    ["X2", "X3", "X4", "X5", "X6", "X7"],
    Some("R11"))
  const ArmPools: Pools := Pools(
    ["R5", "R6", "R7", "R8", "R9", "R10", "R11", "R12", "R13", "R14", "R15"],
    ["F2", "F3", "F4", "F5", "F6", "F7"],
    Some("R4"))

  /** Overrides stay away from the module cache. */
  predicate SuitsOverrides(pools: Pools) {
    pools.cache.Some? ==> pools.cache.value !in CompatPool
  }

  /** They stay away from the registers of loop carries anyway. */
  lemma CompatSparesCarries()
    ensures forall r :: r in CompatPool ==> r !in CarryPool
  {
    forall r | r in CompatPool
      ensures r !in CarryPool
    {
      var k :| 0 <= k < |CompatPool| && CompatPool[k] == r;
      assert |r| == 2 || r[2] == '0';
    }
  }

  /** The last character tells registers of one kind apart. */
  predicate LastChars(regs: seq<Reg>, cs: string) {
    |regs| == |cs| && forall k :: 0 <= k < |regs| ==> regs[k] != "" && regs[k][|regs[k]| - 1] == cs[k]
  }

  lemma AmdSuits()
    ensures AmdPools.Valid() && SuitsOverrides(AmdPools)
  {
    AmdValid();
    forall k | 0 <= k < |CompatPool|
      ensures CompatPool[k] != "R11"
    {
      assert |CompatPool[k]| == 2 || CompatPool[k][2] == '0';
    }
  }

  lemma AmdValid()
    ensures AmdPools.Valid()
  {
    ToldApart(AmdPools.general, "I8901235");
    ToldApart(AmdPools.float, "234567");
    assert forall r :: r in AmdPools.general ==> r[0] != 'X';
    assert forall r :: r in AmdPools.float ==> r[0] == 'X';
  }

  lemma ArmSuits()
    ensures ArmPools.Valid() && SuitsOverrides(ArmPools)
  {
    ArmValid();
    forall k | 0 <= k < |CompatPool|
      ensures CompatPool[k] != "R4"
    {
      assert CompatPool[k][0] != 'R' || CompatPool[k][1] != '4';
    }
  }

  lemma ArmValid()
    ensures ArmPools.Valid()
  {
    ArmApart();
    ToldApart(ArmPools.float, "234567");
    assert forall r :: r in ArmPools.general ==> r[0] == 'R';
    assert forall r :: r in ArmPools.float ==> r[0] == 'F';
  }

  /** Short names differ in the last character, so do long ones, and they differ in length. */
  lemma ArmApart()
    ensures forall i, j :: 0 <= i < j < |ArmPools.general| ==> ArmPools.general[i] != ArmPools.general[j]
  {
    var regs := ArmPools.general;
    ToldApart(regs[..5], "56789");
    ToldApart(regs[5..], "012345");
    assert forall i :: 0 <= i < |regs| ==> |regs[i]| == if i < 5 then 2 else 3;
    forall i, j | 0 <= i < j < |regs|
      ensures regs[i] != regs[j]
    {
      if j < 5 {
        assert regs[..5][i] == regs[i] && regs[..5][j] == regs[j];
      } else if i >= 5 {
        assert regs[5..][i - 5] == regs[i] && regs[5..][j - 5] == regs[j];
      }
    }
  }

  lemma ToldApart(regs: seq<Reg>, cs: string)
    requires LastChars(regs, cs) && forall i, j :: 0 <= i < j < |cs| ==> cs[i] != cs[j]
    ensures forall i, j :: 0 <= i < j < |regs| ==> regs[i] != regs[j]
  {
  }

  predicate DistinctIds(f: seq<Block>) {
    forall b, i, c, j ::
      0 <= b < |f| && 0 <= i < |f[b].values| && 0 <= c < |f| && 0 <= j < |f[c].values|
        && f[b].values[i].id == f[c].values[j].id ==>
        b == c && i == j
  }

  // ----- what a register holds -----

  datatype Token = Token(id: nat, stamp: nat)

  /** Registers after the first `i` values of a block: a CALL leaves nothing, a value with a home writes it. */
  ghost function RunRegs(blk: Block, homes: map<nat, Reg>, i: nat, stamp: nat, regs: map<Reg, Token>): map<Reg, Token>
    requires i <= |blk.values|
  {
    if i == 0 then regs
    else
      var v := blk.values[i - 1];
      var before := RunRegs(blk, homes, i - 1, stamp, regs);
      var left := if v.calls then map[] else before;
      if v.id in homes then left[homes[v.id] := Token(v.id, stamp)] else left
  }

  /** From its definition to its last recorded read a value stays in its register. */
  lemma {:induction false} StaysInRegister(f: seq<Block>, b: nat, reserved: set<Reg>, pools: Pools,
                                           lastUse: map<nat, nat>, homes: map<nat, Reg>, j: nat, i: nat, stamp: nat,
                                           regs: map<Reg, Token>)
    requires BlockScanned(f, b, reserved, pools, lastUse, homes) && j < i <= |f[b].values| && Homed(f[b], homes, j)
    requires i <= LastOf(lastUse, f[b].values[j].id)
    ensures homes[f[b].values[j].id] in RunRegs(f[b], homes, i, stamp, regs)
    ensures RunRegs(f[b], homes, i, stamp, regs)[homes[f[b].values[j].id]] == Token(f[b].values[j].id, stamp)
    decreases i
  {
    if i > j + 1 {
      StaysInRegister(f, b, reserved, pools, lastUse, homes, j, i - 1, stamp, regs);
      assert HomeSafe(f, b, j, reserved, pools, lastUse, homes);
      assert !f[b].values[i - 1].calls;
      if Homed(f[b], homes, i - 1) {
        assert homes[f[b].values[j].id] != homes[f[b].values[i - 1].id];
      }
    }
  }

  /** So every read of it, the copies at the end of the block included, sees it. */
  lemma ReadsSeeRegister(f: seq<Block>, b: nat, reserved: set<Reg>, pools: Pools, lastUse: map<nat, nat>,
                         homes: map<nat, Reg>, j: nat, at: nat, stamp: nat, regs: map<Reg, Token>)
    requires BlockScanned(f, b, reserved, pools, lastUse, homes) && j < at <= |f[b].values| && Homed(f[b], homes, j)
    requires ReadAt(f, b, f[b].values[j].id, at)
    ensures homes[f[b].values[j].id] in RunRegs(f[b], homes, at, stamp, regs)
    ensures RunRegs(f[b], homes, at, stamp, regs)[homes[f[b].values[j].id]] == Token(f[b].values[j].id, stamp)
  {
    StaysInRegister(f, b, reserved, pools, lastUse, homes, j, at, stamp, regs);
  }

  // ----- the whole function -----

  /** The homes that the scan gave in block `b`. */
  function Restrict(regHome: map<nat, Reg>, blk: Block, coalesced: set<nat>): map<nat, Reg> {
    map id | id in regHome && id !in coalesced && DefinedIn(blk, id) :: regHome[id]
  }

  ghost predicate HomesOk(f: seq<Block>, n: nat, reserved: seq<set<Reg>>, pools: Pools, coalesced: set<nat>,
                          lastUses: seq<map<nat, nat>>, regHome: map<nat, Reg>) {
    && n <= |f| && n <= |lastUses| && n <= |reserved|
    && forall b ::
         0 <= b < n ==> BlockScanned(f, b, reserved[b], pools, lastUses[b], Restrict(regHome, f[b], coalesced))
  }

  /** Coalesced values are phis or arguments of phis, and phis write no register themselves. */
  ghost predicate CarriesArePhis(f: seq<Block>, coalesced: set<nat>) {
    && (forall b, j :: 0 <= b < |f| && 0 <= j < |f[b].values| && f[b].values[j].isPhi ==> !f[b].values[j].eligible)
    && (forall b, j ::
          0 <= b < |f| && 0 <= j < |f[b].values| && f[b].values[j].id in coalesced && !f[b].values[j].isPhi ==>
          PhiArgument(f, f[b].values[j].id))
  }

  ghost predicate PhiArgument(f: seq<Block>, id: nat) {
    exists c :: 0 <= c < |f| && PhiReads(f[c], id)
  }

  /** The scan gives nothing to a coalesced value. */
  lemma CoalescedSpared(f: seq<Block>, b: nat, coalesced: set<nat>, reserved: set<Reg>, pools: Pools,
                        lastUse: map<nat, nat>, given: map<nat, Reg>)
    requires CarriesArePhis(f, coalesced) && BlockScanned(f, b, reserved, pools, lastUse, given)
    ensures forall id :: id in given ==> id !in coalesced
  {
    forall id | id in given
      ensures id !in coalesced
    {
      assert DefinedIn(f[b], id);
      var j :| 0 <= j < |f[b].values| && f[b].values[j].id == id;
      assert Homed(f[b], given, j) && HomeSafe(f, b, j, reserved, pools, lastUse, given);
      if PhiArgument(f, id) {
        var c :| 0 <= c < |f| && PhiReads(f[c], id);
        assert NamedIn(f[c], id);
      }
    }
  }

  /** Adding the homes of one more block. */
  lemma HomesGrow(f: seq<Block>, b: nat, reserved: seq<set<Reg>>, pools: Pools, coalesced: set<nat>,
                  lastUses: seq<map<nat, nat>>, lastUse: map<nat, nat>, regHome: map<nat, Reg>, given: map<nat, Reg>)
    requires DistinctIds(f) && b < |f| == |reserved| && |lastUses| == b
             && HomesOk(f, b, reserved, pools, coalesced, lastUses, regHome)
    requires BlockScanned(f, b, reserved[b], pools, lastUse, given) && forall id :: id in given ==> id !in coalesced
    requires forall id :: id in regHome && DefinedIn(f[b], id) ==> id in coalesced
    ensures HomesOk(f, b + 1, reserved, pools, coalesced, lastUses + [lastUse], regHome + given)
  {
    forall c | 0 <= c < b + 1
      ensures BlockScanned(f, c, reserved[c], pools, (lastUses + [lastUse])[c],
                           Restrict(regHome + given, f[c], coalesced))
    {
      if c < b {
        assert Restrict(regHome + given, f[c], coalesced) == Restrict(regHome, f[c], coalesced) by {
          forall id | id in given
            ensures !DefinedIn(f[c], id)
          {
            assert DefinedIn(f[b], id);
          }
        }
      } else {
        assert Restrict(regHome + given, f[c], coalesced) == given;
      }
    }
  }

  /** In the first blocks no register was left unused, and the last uses are reads. */
  ghost predicate HomesFull(f: seq<Block>, n: nat, reserved: seq<set<Reg>>, pools: Pools, coalesced: set<nat>,
                            lastUses: seq<map<nat, nat>>, regHome: map<nat, Reg>) {
    && n <= |f| && n <= |lastUses| && n <= |reserved|
    && forall b {:trigger FullBlock(f, b, reserved[b], pools, lastUses[b], Restrict(regHome, f[b], coalesced))} ::
         0 <= b < n ==> FullBlock(f, b, reserved[b], pools, lastUses[b], Restrict(regHome, f[b], coalesced))
  }

  ghost predicate FullBlock(f: seq<Block>, b: nat, reserved: set<Reg>, pools: Pools, lastUse: map<nat, nat>,
                            given: map<nat, Reg>)
    requires b < |f|
  {
    Tight(f, b, lastUse) && BlockFull(f, b, reserved, pools, lastUse, given)
  }

  lemma FullGrows(f: seq<Block>, b: nat, reserved: seq<set<Reg>>, pools: Pools, coalesced: set<nat>,
                  lastUses: seq<map<nat, nat>>, lastUse: map<nat, nat>, regHome: map<nat, Reg>, given: map<nat, Reg>)
    requires DistinctIds(f) && b < |f| == |reserved| && |lastUses| == b
    requires HomesFull(f, b, reserved, pools, coalesced, lastUses, regHome)
    requires FullBlock(f, b, reserved[b], pools, lastUse, given) && forall id :: id in given ==> id !in coalesced
    requires forall id :: id in given ==> DefinedIn(f[b], id)
    requires forall id :: id in regHome && DefinedIn(f[b], id) ==> id in coalesced
    ensures HomesFull(f, b + 1, reserved, pools, coalesced, lastUses + [lastUse], regHome + given)
  {
    forall c | 0 <= c < b + 1
      ensures FullBlock(f, c, reserved[c], pools, (lastUses + [lastUse])[c],
                        Restrict(regHome + given, f[c], coalesced))
    {
      if c < b {
        assert Restrict(regHome + given, f[c], coalesced) == Restrict(regHome, f[c], coalesced) by {
          forall id | id in given
            ensures !DefinedIn(f[c], id)
          {
            assert DefinedIn(f[b], id);
          }
        }
        assert FullBlock(f, c, reserved[c], pools, lastUses[c], Restrict(regHome, f[c], coalesced));
      } else {
        assert Restrict(regHome + given, f[c], coalesced) == given;
      }
    }
  }

  // ----- overrides -----

  function Holders(regHome: map<nat, Reg>, r: Reg): set<nat> {
    set id | id in regHome && regHome[id] == r
  }

  function Count(useCount: map<Reg, int>, r: Reg): int {
    if r in useCount then useCount[r] else 0
  }

  ghost predicate Counted(regHome: map<nat, Reg>, useCount: map<Reg, int>) {
    forall r :: Count(useCount, r) == |Holders(regHome, r)|
  }

  method CountHolders(regHome: map<nat, Reg>) returns (useCount: map<Reg, int>)
    ensures Counted(regHome, useCount)
  {
    useCount := map[];
    var todo := regHome.Keys;
    ghost var done: map<nat, Reg> := map[];
    while todo != {}
      invariant todo <= regHome.Keys && done.Keys == regHome.Keys - todo
                && forall x :: x in done ==> done[x] == regHome[x]
      invariant Counted(done, useCount)
      decreases todo
    {
      var id :| id in todo;
      var r := regHome[id];
      CountedAdd(done, useCount, id, r);
      todo := todo - {id};
      done := done[id := r];
      useCount := useCount[r := Count(useCount, r) + 1];
    }
    assert done == regHome;
  }

  lemma CountedAdd(regHome: map<nat, Reg>, useCount: map<Reg, int>, id: nat, r: Reg)
    requires Counted(regHome, useCount) && id !in regHome
    ensures Counted(regHome[id := r], useCount[r := Count(useCount, r) + 1])
  {
    var more := regHome[id := r];
    assert Holders(more, r) == Holders(regHome, r) + {id};
    forall q | q != r
      ensures |Holders(more, q)| == |Holders(regHome, q)|
    {
      assert Holders(more, q) == Holders(regHome, q);
    }
  }

  lemma CountedDrop(regHome: map<nat, Reg>, useCount: map<Reg, int>, id: nat)
    requires Counted(regHome, useCount) && id in regHome
    ensures Counted(regHome - {id}, useCount[regHome[id] := Count(useCount, regHome[id]) - 1])
  {
    var r := regHome[id];
    var less := regHome - {id};
    assert Holders(less, r) == Holders(regHome, r) - {id};
    forall q | q != r
      ensures |Holders(less, q)| == |Holders(regHome, q)|
    {
      assert Holders(less, q) == Holders(regHome, q);
    }
  }

  /** Moving a value from one register to another. */
  lemma CountedMove(regHome: map<nat, Reg>, useCount: map<Reg, int>, id: nat, r: Reg)
    requires Counted(regHome, useCount) && id in regHome
    ensures var less := useCount[regHome[id] := Count(useCount, regHome[id]) - 1];
            Counted(regHome[id := r], less[r := Count(less, r) + 1])
  {
    CountedDrop(regHome, useCount, id);
    CountedAdd(regHome - {id}, useCount[regHome[id] := Count(useCount, regHome[id]) - 1], id, r);
    assert (regHome - {id})[id := r] == regHome[id := r];
  }

  /** Values whose register was changed share it with nobody. */
  ghost predicate Exclusive(regHome: map<nat, Reg>, changed: set<nat>) {
    forall id, w :: id in changed && id in regHome && w in regHome && w != id ==> regHome[w] != regHome[id]
  }

  /** `to` differs from `from` only in `changed` values, which went where the new allocator has them. */
  ghost predicate Overridden(from: map<nat, Reg>, to: map<nat, Reg>, changed: set<nat>, newHome: map<nat, Reg>,
                             spill: set<nat>, touched: set<nat>) {
    && to.Keys == from.Keys && changed <= from.Keys
    && (forall id :: id in from && id !in changed ==> to[id] == from[id])
    && (forall id ::
          id in changed ==>
            id in newHome && to[id] == newHome[id] && to[id] in CompatPool && id !in spill && id !in touched)
  }

  /** Nobody has register `r`. */
  predicate NoneHolds(regHome: map<nat, Reg>, r: Reg) {
    forall w :: w in regHome ==> regHome[w] != r
  }

  /** May value `vid` move to the register the new allocator has for it? */
  predicate Moves(home: map<nat, Reg>, newHome: map<nat, Reg>, spill: set<nat>, touched: set<nat>, vid: nat) {
    && vid in newHome && vid in home && vid !in spill && vid !in touched && newHome[vid] in CompatPool
    && NoneHolds(home, newHome[vid])
  }

  /** The homes after the values of `order` have been looked at one by one. */
  function OverrideAll(home: map<nat, Reg>, order: seq<nat>, newHome: map<nat, Reg>, spill: set<nat>, touched: set<nat>)
    : map<nat, Reg>
  {
    if order == [] then home
    else
      var n := |order| - 1;
      var before := OverrideAll(home, order[..n], newHome, spill, touched);
      if Moves(before, newHome, spill, touched, order[n]) then before[order[n] := newHome[order[n]]] else before
  }

  /** `order` walks the keys of `newHome`, each once. */
  ghost predicate IsOrder(order: seq<nat>, newHome: map<nat, Reg>) {
    NoDup(order) && forall x :: x in order <==> x in newHome
  }

  // ----- register classes -----

  ghost predicate FloatId(f: seq<Block>, id: nat) {
    exists b, j :: 0 <= b < |f| && 0 <= j < |f[b].values| && f[b].values[j].id == id && f[b].values[j].kind.Float?
  }

  /** The pool that `id` takes its register from. */
  ghost function PoolOf(f: seq<Block>, pools: Pools, id: nat): seq<Reg> {
    if FloatId(f, id) then pools.float else pools.general
  }

  ghost predicate OwnPools(f: seq<Block>, pools: Pools, home: map<nat, Reg>) {
    forall id :: id in home ==> home[id] in PoolOf(f, pools, id)
  }

  /** Where the new allocator gives a register that overrides may use, it is of the right class. */
  ghost predicate RespectsClasses(f: seq<Block>, pools: Pools, newHome: map<nat, Reg>) {
    forall id :: id in newHome && newHome[id] in CompatPool ==> newHome[id] in PoolOf(f, pools, id)
  }

  /** Whatever the new allocator says within the register classes, and in whatever order its homes are walked,
      `id` keeps its home. */
  ghost predicate KeepsHome(f: seq<Block>, pools: Pools, home: map<nat, Reg>, touched: set<nat>, id: nat) {
    forall order, newHome, spill {:trigger OverrideAll(home, order, newHome, spill, touched)} ::
      IsOrder(order, newHome) && RespectsClasses(f, pools, newHome) ==>
      id in OverrideAll(home, order, newHome, spill, touched) && id in home
      && OverrideAll(home, order, newHome, spill, touched)[id] == home[id]
  }

  /** Some register of the class of `id` that overrides may use is free. */
  ghost predicate OwnFree(f: seq<Block>, pools: Pools, home: map<nat, Reg>, id: nat) {
    exists r :: r in CompatPool && r in PoolOf(f, pools, id) && NoneHolds(home, r)
  }

  /** A move within the classes frees no register of a class that had none free. */
  lemma NoneFreed(f: seq<Block>, pools: Pools, home: map<nat, Reg>, id: nat, v: nat, r: Reg)
    requires OwnPools(f, pools, home) && pools.Valid() && !OwnFree(f, pools, home, id)
    requires v in home && r in CompatPool && r in PoolOf(f, pools, v) && NoneHolds(home, r)
    ensures v != id && OwnPools(f, pools, home[v := r]) && !OwnFree(f, pools, home[v := r], id)
  {
    assert FloatId(f, v) != FloatId(f, id);
    forall q | q in CompatPool && q in PoolOf(f, pools, id)
      ensures !NoneHolds(home[v := r], q)
    {
      assert !NoneHolds(home, q);
      var w :| w in home && home[w] == q;
      assert home[v := r][w] == q;
    }
  }

  /** Exempt values stay, and so do those for which nothing is free. */
  lemma {:induction false} StaysPut(f: seq<Block>, pools: Pools, home: map<nat, Reg>, order: seq<nat>,
                                    newHome: map<nat, Reg>, spill: set<nat>, touched: set<nat>, id: nat)
    requires id in home && OwnPools(f, pools, home) && pools.Valid() && RespectsClasses(f, pools, newHome)
    requires id in touched || !OwnFree(f, pools, home, id)
    ensures var to := OverrideAll(home, order, newHome, spill, touched);
            && id in to && to[id] == home[id]
            && (!OwnFree(f, pools, home, id) ==> OwnPools(f, pools, to) && !OwnFree(f, pools, to, id))
  {
    if order != [] {
      var n := |order| - 1;
      StaysPut(f, pools, home, order[..n], newHome, spill, touched, id);
      var before := OverrideAll(home, order[..n], newHome, spill, touched);
      if Moves(before, newHome, spill, touched, order[n]) && !OwnFree(f, pools, home, id) {
        NoneFreed(f, pools, before, id, order[n], newHome[order[n]]);
      }
    }
  }

  /** A value keeps its home under all overrides exactly when a phi names it, itself or as a direct argument, or
      no register of its class is free for an override. */
  lemma KeepsHomeIff(f: seq<Block>, pools: Pools, home: map<nat, Reg>, touched: set<nat>, id: nat)
    requires id in home && OwnPools(f, pools, home) && pools.Valid()
    requires forall x :: x in touched <==> Touched(f, x)
    ensures KeepsHome(f, pools, home, touched, id) <==> Touched(f, id) || !OwnFree(f, pools, home, id)
  {
    if Touched(f, id) || !OwnFree(f, pools, home, id) {
      forall order, newHome, spill | IsOrder(order, newHome) && RespectsClasses(f, pools, newHome)
        ensures var to := OverrideAll(home, order, newHome, spill, touched); id in to && to[id] == home[id]
      {
        StaysPut(f, pools, home, order, newHome, spill, touched, id);
      }
    } else {
      var r :| r in CompatPool && r in PoolOf(f, pools, id) && NoneHolds(home, r);
      var newHome := map[id := r];
      MovesAlone(home, newHome, touched, id);
      assert IsOrder([id], newHome) && RespectsClasses(f, pools, newHome);
    }
  }

  lemma MovesAlone(home: map<nat, Reg>, newHome: map<nat, Reg>, touched: set<nat>, id: nat)
    requires Moves(home, newHome, {}, touched, id)
    ensures OverrideAll(home, [id], newHome, {}, touched) == home[id := newHome[id]]
  {
    assert [id][..0] == [];
  }

  lemma HeldIff(regHome: map<nat, Reg>, useCount: map<Reg, int>, r: Reg)
    requires Counted(regHome, useCount)
    ensures NoneHolds(regHome, r) <==> Count(useCount, r) <= 0
  {
    if NoneHolds(regHome, r) {
      assert Holders(regHome, r) == {};
    } else {
      var w :| w in regHome && regHome[w] == r;
      assert w in Holders(regHome, r);
    }
  }

  lemma OverrideStep(from: map<nat, Reg>, to: map<nat, Reg>, changed: set<nat>, newHome: map<nat, Reg>, spill: set<nat>,
                     touched: set<nat>, vid: nat)
    requires Overridden(from, to, changed, newHome, spill, touched) && Exclusive(to, changed)
    requires vid in to && vid in newHome && newHome[vid] in CompatPool && vid !in spill && vid !in touched
    requires forall id :: id in to ==> to[id] != newHome[vid]
    ensures Overridden(from, to[vid := newHome[vid]], changed + {vid}, newHome, spill, touched)
    ensures Exclusive(to[vid := newHome[vid]], changed + {vid})
  {
    ExclusiveStep(to, changed, vid, newHome[vid]);
  }

  /** The keys outside `todo` have been walked, in `order`. */
  ghost predicate Walked(from: map<nat, Reg>, to: map<nat, Reg>, changed: set<nat>, order: seq<nat>, todo: set<nat>,
                         newHome: map<nat, Reg>, spill: set<nat>, touched: set<nat>) {
    && todo <= newHome.Keys && NoDup(order) && (forall x :: x in order <==> x in newHome && x !in todo)
    && Overridden(from, to, changed, newHome, spill, touched) && Exclusive(to, changed)
    && to == OverrideAll(from, order, newHome, spill, touched)
  }

  /** One more key: its value moves, or all stays. */
  lemma WalkOn(from: map<nat, Reg>, to: map<nat, Reg>, changed: set<nat>, order: seq<nat>, todo: set<nat>,
               newHome: map<nat, Reg>, spill: set<nat>, touched: set<nat>, vid: nat)
    requires Walked(from, to, changed, order, todo, newHome, spill, touched) && vid in todo
    ensures if Moves(to, newHome, spill, touched, vid) then
              Walked(from, to[vid := newHome[vid]], changed + {vid}, order + [vid], todo - {vid},
                     newHome, spill, touched)
            else Walked(from, to, changed, order + [vid], todo - {vid}, newHome, spill, touched)
  {
    assert (order + [vid])[..|order|] == order;
    if Moves(to, newHome, spill, touched, vid) {
      OverrideStep(from, to, changed, newHome, spill, touched, vid);
    }
  }

  lemma ExclusiveStep(to: map<nat, Reg>, changed: set<nat>, vid: nat, r: Reg)
    requires Exclusive(to, changed) && vid in to && forall id :: id in to ==> to[id] != r
    ensures Exclusive(to[vid := r], changed + {vid})
  {
    var more := to[vid := r];
    forall id, w | id in changed + {vid} && id in more && w in more && w != id
      ensures more[w] != more[id]
    {
      assert id in to && w in to;
    }
  }

  /** Phis, and what stands as an argument of one. */
  method PhiTouched(f: seq<Block>) returns (touched: set<nat>)
    ensures forall x :: x in touched <==> Touched(f, x)
  {
    touched := {};
    for b := 0 to |f|
      invariant forall x :: x in touched <==>
                  exists c, i :: 0 <= c < b && 0 <= i < |f[c].values| && TouchedBy(f[c].values[i], x)
    {
      for i := 0 to |f[b].values|
        invariant forall x :: x in touched <==>
                    (exists c, j :: 0 <= c < b && 0 <= j < |f[c].values| && TouchedBy(f[c].values[j], x))
                    || exists j :: 0 <= j < i && TouchedBy(f[b].values[j], x)
      {
        if f[b].values[i].isPhi {
          touched := touched + {f[b].values[i].id} + set x | x in f[b].values[i].direct;
        }
      }
    }
  }

  predicate TouchedBy(v: Value, x: nat) {
    v.isPhi && (x == v.id || x in v.direct)
  }

  ghost predicate Touched(f: seq<Block>, x: nat) {
    exists b, i :: 0 <= b < |f| && 0 <= i < |f[b].values| && TouchedBy(f[b].values[i], x)
  }

  /** A loop whose header phi names its carry through a copy. */
  const CopiedCarry: seq<Block> := [
    Block([Value(0, false, false, General, true, [9, 1], [9, 2]),
           Value(1, true, false, General, false, [0], [0]),
           Value(2, false, false, General, false, [1], [1])], None, [0])
  ]

  const CarryHomes: map<nat, Reg> := map[0 := "R12", 1 := "R12"]

  /** Coalescing looks through the copy and gives phi 0 and carry 1 one register; the overrides do not, and may
      move the carry away from its phi. */
  lemma CarryLosesHome(touched: set<nat>)
    requires forall x :: x in touched <==> Touched(CopiedCarry, x)
    ensures CarriesArePhis(CopiedCarry, {0, 1}) && PhiReads(CopiedCarry[0], 1) && 1 !in touched
    ensures OwnPools(CopiedCarry, AmdPools, CarryHomes) && RespectsClasses(CopiedCarry, AmdPools, map[1 := "DI"])
    ensures OverrideAll(CarryHomes, [1], map[1 := "DI"], {}, touched) == map[0 := "R12", 1 := "DI"]
    ensures !KeepsHome(CopiedCarry, AmdPools, CarryHomes, touched, 1)
    ensures KeepsHome(CopiedCarry, AmdPools, CarryHomes, touched, 0)
  {
    CarryIsCopied();
    CarryMayMove(touched);
    CarryClasses();
    MovesAlone(CarryHomes, map[1 := "DI"], touched, 1);
    CarryKeepsIff(CopiedCarry, AmdPools, CarryHomes, touched);
  }

  lemma CarryKeepsIff(f: seq<Block>, pools: Pools, home: map<nat, Reg>, touched: set<nat>)
    requires f == CopiedCarry && pools == AmdPools && home == CarryHomes
    requires OwnPools(f, pools, home) && OwnFree(f, pools, home, 1) && Touched(f, 0) && !Touched(f, 1)
    requires forall x :: x in touched <==> Touched(f, x)
    ensures !KeepsHome(f, pools, home, touched, 1) && KeepsHome(f, pools, home, touched, 0)
  {
    AmdSuits();
    KeepsHomeIff(f, pools, home, touched, 1);
    KeepsHomeIff(f, pools, home, touched, 0);
  }

  lemma CarryMayMove(touched: set<nat>)
    requires 1 !in touched
    ensures Moves(CarryHomes, map[1 := "DI"], {}, touched, 1)
  {
    assert CompatPool[0] == "DI";
    assert "DI"[0] != "R12"[0];
    assert NoneHolds(CarryHomes, "DI");
  }

  lemma CarryClasses()
    ensures OwnPools(CopiedCarry, AmdPools, CarryHomes) && RespectsClasses(CopiedCarry, AmdPools, map[1 := "DI"])
    ensures OwnFree(CopiedCarry, AmdPools, CarryHomes, 1)
  {
    forall id
      ensures !FloatId(CopiedCarry, id)
    {
      assert forall j :: 0 <= j < 3 ==> CopiedCarry[0].values[j].kind == General;
    }
    assert AmdPools.general[0] == CompatPool[0] == "DI" && AmdPools.general[5] == "R12";
    CarryMayMove({});
  }

  lemma CarryIsCopied()
    ensures CarriesArePhis(CopiedCarry, {0, 1}) && PhiReads(CopiedCarry[0], 1)
    ensures Touched(CopiedCarry, 0) && !Touched(CopiedCarry, 1)
  {
    var vs := CopiedCarry[0].values;
    assert |vs| == 3 && vs[0].isPhi && !vs[1].isPhi && !vs[2].isPhi;
    assert vs[0].direct == [9, 2] && vs[0].args == [9, 1];
    assert vs[0].args[1] == 1 && 1 in vs[0].args;
    assert TouchedBy(vs[0], 0);
    assert 1 !in [9, 2];
  }

  // ----- overrides keep what the scan promised -----

  lemma OverrideKeepsBlock(f: seq<Block>, b: nat, reserved: set<Reg>, pools: Pools, coalesced: set<nat>,
                           lastUse: map<nat, nat>, from: map<nat, Reg>, to: map<nat, Reg>, changed: set<nat>,
                           newHome: map<nat, Reg>, spill: set<nat>, touched: set<nat>)
    requires DistinctIds(f) && b < |f| && BlockScanned(f, b, reserved, pools, lastUse, Restrict(from, f[b], coalesced))
    requires Overridden(from, to, changed, newHome, spill, touched) && Exclusive(to, changed)
    requires forall r :: r in reserved ==> r in CarryPool
    requires SuitsOverrides(pools)
    requires forall j :: 0 <= j < |f[b].values| && f[b].values[j].id in changed ==>
               newHome[f[b].values[j].id] in if f[b].values[j].kind.Float? then pools.float else pools.general
    ensures BlockScanned(f, b, reserved, pools, lastUse, Restrict(to, f[b], coalesced))
  {
    var was, now := Restrict(from, f[b], coalesced), Restrict(to, f[b], coalesced);
    OverrideNoShare(f[b], lastUse, was, now, changed);
    forall j | 0 <= j < |f[b].values|
      ensures HomeSafe(f, b, j, reserved, pools, lastUse, now)
    {
      assert HomeSafe(f, b, j, reserved, pools, lastUse, was);
      if Homed(f[b], now, j) {
        OverrideHome(f, b, j, reserved, pools, lastUse, was, now);
      }
    }
  }

  lemma OverrideNoShare(blk: Block, lastUse: map<nat, nat>, was: map<nat, Reg>, now: map<nat, Reg>, changed: set<nat>)
    requires Distinct(blk) && NoShare(blk, |blk.values|, lastUse, was) && was.Keys == now.Keys
    requires forall id :: id in was && id !in changed ==> now[id] == was[id]
    requires forall id, w :: id in changed && id in now && w in now && w != id ==> now[w] != now[id]
    ensures NoShare(blk, |blk.values|, lastUse, now)
  {
    forall j, k |
      0 <= j < k < |blk.values| && Homed(blk, now, j) && Homed(blk, now, k)
        && now[blk.values[j].id] == now[blk.values[k].id]
      ensures LastOf(lastUse, blk.values[j].id) < k
    {
      assert Homed(blk, was, j) && Homed(blk, was, k);
      assert blk.values[j].id !in changed && blk.values[k].id !in changed;
    }
  }

  lemma OverrideHome(f: seq<Block>, b: nat, j: nat, reserved: set<Reg>, pools: Pools, lastUse: map<nat, nat>,
                     was: map<nat, Reg>, now: map<nat, Reg>)
    requires b < |f| && j < |f[b].values| && Homed(f[b], was, j) && Homed(f[b], now, j)
    requires HomeSafe(f, b, j, reserved, pools, lastUse, was)
    requires var v := f[b].values[j];
             now[v.id] == was[v.id]
             || (now[v.id] in CompatPool && now[v.id] in if v.kind.Float? then pools.float else pools.general)
    requires forall r :: r in reserved ==> r in CarryPool
    requires SuitsOverrides(pools)
    ensures HomeSafe(f, b, j, reserved, pools, lastUse, now)
  {
    CompatSparesCarries();
  }

  /** Overriding any values in any order leaves every block as the scan promised. */
  lemma OverrideKeepsHomes(f: seq<Block>, reserved: seq<set<Reg>>, pools: Pools, coalesced: set<nat>,
                           lastUses: seq<map<nat, nat>>, from: map<nat, Reg>, to: map<nat, Reg>, changed: set<nat>,
                           newHome: map<nat, Reg>, spill: set<nat>, touched: set<nat>)
    requires DistinctIds(f) && HomesOk(f, |f|, reserved, pools, coalesced, lastUses, from)
    requires Overridden(from, to, changed, newHome, spill, touched) && Exclusive(to, changed)
    requires forall b, r :: 0 <= b < |reserved| && r in reserved[b] ==> r in CarryPool
    requires SuitsOverrides(pools)
    requires forall b, j :: 0 <= b < |f| && 0 <= j < |f[b].values| && f[b].values[j].id in changed ==>
               newHome[f[b].values[j].id] in if f[b].values[j].kind.Float? then pools.float else pools.general
    ensures HomesOk(f, |f|, reserved, pools, coalesced, lastUses, to)
    ensures forall id :: id in coalesced && id in from && id in touched ==> to[id] == from[id]
    ensures forall id, w :: id in changed && w in from && w != id ==> to[w] != to[id]
  {
    forall b | 0 <= b < |f|
      ensures BlockScanned(f, b, reserved[b], pools, lastUses[b], Restrict(to, f[b], coalesced))
    {
      OverrideKeepsBlock(f, b, reserved[b], pools, coalesced, lastUses[b], from, to, changed, newHome, spill, touched);
    }
  }

  class RegPlan {
    const f: seq<Block>
    const reserved: seq<set<Reg>>
    const pools: Pools
    var regHome: map<nat, Reg>

    constructor (f: seq<Block>, reserved: seq<set<Reg>>, pools: Pools, carries: map<nat, Reg>)
      ensures this.f == f && this.reserved == reserved && this.pools == pools && regHome == carries
    {
      this.f, this.reserved, this.pools, regHome := f, reserved, pools, carries;
    }

    /** Scans every block.  The homes of loop carries, there from the start, stay. */
    method ComputeRegHomes() returns (ghost lastUses: seq<map<nat, nat>>)
      requires DistinctIds(f) && |reserved| == |f| && pools.Valid()
      requires CarriesArePhis(f, regHome.Keys)
      modifies this
      ensures HomesOk(f, |f|, reserved, pools, old(regHome).Keys, lastUses, regHome)
      ensures forall id :: id in old(regHome) ==> id in regHome && regHome[id] == old(regHome)[id]
      ensures OwnPools(f, pools, old(regHome)) ==> OwnPools(f, pools, regHome)
      ensures HomesFull(f, |f|, reserved, pools, old(regHome).Keys, lastUses, regHome)
    {
      lastUses := [];
      ghost var coalesced := regHome.Keys;
      for b := 0 to |f|
        invariant |lastUses| == b && HomesOk(f, b, reserved, pools, coalesced, lastUses, regHome)
        invariant forall id :: id in old(regHome) ==> id in regHome && regHome[id] == old(regHome)[id]
        invariant forall c, id :: b <= c < |f| && id in regHome && DefinedIn(f[c], id) ==> id in coalesced
        invariant OwnPools(f, pools, old(regHome)) ==> OwnPools(f, pools, regHome)
        invariant HomesFull(f, b, reserved, pools, coalesced, lastUses, regHome)
      {
        BlockDistinct(f, b);
        var given, lastUse, trace := ScanBlock(f, b, reserved[b], pools);
        CoalescedSpared(f, b, coalesced, reserved[b], pools, lastUse, given);
        FullGrows(f, b, reserved, pools, coalesced, lastUses, lastUse, regHome, given);
        HomesGrow(f, b, reserved, pools, coalesced, lastUses, lastUse, regHome, given);
        GivenHere(f, b, given);
        GivenOwnPools(f, b, reserved[b], pools, lastUse, given);
        regHome := regHome + given;
        lastUses := lastUses + [lastUse];
      }
    }

    /** Takes over registers of the cross-block allocator that nobody holds, in any order, except for values that
        a phi touches. */
    method ApplyOverrides(newHome: map<nat, Reg>, spill: set<nat>)
      returns (ghost touched: set<nat>, ghost changed: set<nat>, ghost order: seq<nat>)
      modifies this
      ensures forall x :: x in touched <==> Touched(f, x)
      ensures Overridden(old(regHome), regHome, changed, newHome, spill, touched) && Exclusive(regHome, changed)
      ensures IsOrder(order, newHome) && regHome == OverrideAll(old(regHome), order, newHome, spill, touched)
    {
      var phiTouched := PhiTouched(f);
      touched, changed, order := phiTouched, {}, [];
      var useCount := CountHolders(regHome);
      var todo := newHome.Keys;
      while todo != {}
        invariant Counted(regHome, useCount)
        invariant Walked(old(regHome), regHome, changed, order, todo, newHome, spill, touched)
        decreases todo
      {
        var vid :| vid in todo;
        WalkOn(old(regHome), regHome, changed, order, todo, newHome, spill, touched, vid);
        todo := todo - {vid};
        order := order + [vid];
        var moved;
        moved, useCount := Override(vid, newHome, spill, phiTouched, useCount);
        changed := if moved then changed + {vid} else changed;
      }
    }

    /** Moves one value, if it may move. */
    method Override(vid: nat, newHome: map<nat, Reg>, spill: set<nat>, touched: set<nat>, useCount: map<Reg, int>)
      returns (moved: bool, counts: map<Reg, int>)
      requires vid in newHome && Counted(regHome, useCount)
      modifies this
      ensures moved <==> Moves(old(regHome), newHome, spill, touched, vid)
      ensures regHome == (if moved then old(regHome)[vid := newHome[vid]] else old(regHome)) && Counted(regHome, counts)
    {
      moved, counts := false, useCount;
      var reg := newHome[vid];
      HeldIff(regHome, useCount, reg);
      if vid !in regHome || vid in spill || vid in touched || reg !in CompatPool || reg == regHome[vid]
         || Count(useCount, reg) > 0 {
        return;
      }
      CountedMove(regHome, useCount, vid, reg);
      counts := counts[regHome[vid] := Count(counts, regHome[vid]) - 1];
      counts := counts[reg := Count(counts, reg) + 1];
      regHome := regHome[vid := reg];
      moved := true;
    }
  }

  lemma GivenOwnPools(f: seq<Block>, b: nat, reserved: set<Reg>, pools: Pools, lastUse: map<nat, nat>,
                      given: map<nat, Reg>)
    requires DistinctIds(f) && b < |f| && BlockScanned(f, b, reserved, pools, lastUse, given)
    ensures OwnPools(f, pools, given)
  {
    forall id | id in given
      ensures given[id] in PoolOf(f, pools, id)
    {
      assert DefinedIn(f[b], id);
      var j :| 0 <= j < |f[b].values| && f[b].values[j].id == id;
      assert Homed(f[b], given, j) && HomeSafe(f, b, j, reserved, pools, lastUse, given);
      assert FloatId(f, id) <==> f[b].values[j].kind.Float?;
    }
  }

  lemma BlockDistinct(f: seq<Block>, b: nat)
    requires DistinctIds(f) && b < |f|
    ensures Distinct(f[b])
  {
  }

  lemma GivenHere(f: seq<Block>, b: nat, given: map<nat, Reg>)
    requires DistinctIds(f) && b < |f| && forall id :: id in given ==> DefinedIn(f[b], id)
    ensures forall c, id :: b < c < |f| && DefinedIn(f[c], id) ==> id !in given
  {
  }
}
