/** Registers for the values of one block, by linear scan. */
module LinearScan {
  import opened Basics

  datatype Kind = General | Float | Neither

  /** A value: `eligible` says that its operation writes a register and is emitted at all, `calls` that it
      emits a CALL; `args` are the values it reads with copies looked through, `direct` as they stand. */
  datatype Value = Value(id: nat, eligible: bool, calls: bool, kind: Kind, isPhi: bool, args: seq<nat>,
                         direct: seq<nat>)

  datatype Block = Block(values: seq<Value>, control: Option<nat>, succs: seq<nat>)

  /** Registers by name. */
  type Reg = string

  /** The registers a plan hands out, and the one caching the module, if any. */
  datatype Pools = Pools(general: seq<Reg>, float: seq<Reg>, cache: Option<Reg>)
  {
    /** No register is listed twice, and the cache is no floating-point register. */
    predicate Valid() {
      && (forall i, j :: 0 <= i < j < |general| ==> general[i] != general[j])
      && (forall i, j :: 0 <= i < j < |float| ==> float[i] != float[j])
      && (forall r :: r in general ==> r !in float)
      && (cache.Some? ==> cache.value !in float)
    }
  }

  predicate Distinct(blk: Block) {
    forall i, j :: 0 <= i < j < |blk.values| ==> blk.values[i].id != blk.values[j].id
  }

  // ----- uses -----

  predicate DefinedIn(blk: Block, id: nat) {
    exists i :: 0 <= i < |blk.values| && blk.values[i].id == id
  }

  /** Value `id` is read in block `b` at position `at`; phi arguments of successors are read at its end. */
  ghost predicate ReadAt(f: seq<Block>, b: nat, id: nat, at: nat)
    requires b < |f|
  {
    || (at < |f[b].values| && id in f[b].values[at].args)
    || (at == |f[b].values| && (f[b].control == Some(id) || PhiOfSuccessor(f, b, id)))
  }

  ghost predicate PhiOfSuccessor(f: seq<Block>, b: nat, id: nat)
    requires b < |f|
  {
    exists k :: 0 <= k < |f[b].succs| && f[b].succs[k] < |f| && PhiReads(f[f[b].succs[k]], id)
  }

  predicate PhiReads(blk: Block, id: nat) {
    exists i :: 0 <= i < |blk.values| && blk.values[i].isPhi && id in blk.values[i].args
  }

  predicate NamedIn(blk: Block, id: nat) {
    blk.control == Some(id) || exists i :: 0 <= i < |blk.values| && id in blk.values[i].args
  }

  /** The value is read in another block, or by a phi of its own. */
  ghost predicate IsCross(f: seq<Block>, b: nat, id: nat)
    requires b < |f|
  {
    PhiReads(f[b], id) || exists c :: 0 <= c < |f| && c != b && NamedIn(f[c], id)
  }

  method ReadsOf(blk: Block, phisOnly: bool) returns (ids: set<nat>)
    ensures forall x :: x in ids <==>
              exists i :: 0 <= i < |blk.values| && (phisOnly ==> blk.values[i].isPhi) && x in blk.values[i].args
  {
    ids := {};
    for i := 0 to |blk.values|
      invariant forall x :: x in ids <==>
                  exists j :: 0 <= j < i && (phisOnly ==> blk.values[j].isPhi) && x in blk.values[j].args
    {
      if !phisOnly || blk.values[i].isPhi {
        ids := ids + set x | x in blk.values[i].args;
      }
    }
  }

  method CrossBlock(f: seq<Block>, b: nat) returns (cross: set<nat>)
    requires b < |f|
    ensures forall x :: x in cross <==> IsCross(f, b, x)
  {
    cross := ReadsOf(f[b], true);
    for c := 0 to |f|
      invariant forall x :: x in cross <==> PhiReads(f[b], x) || exists d :: 0 <= d < c && d != b && NamedIn(f[d], x)
    {
      if c != b {
        var more := ReadsOf(f[c], false);
        if f[c].control.Some? {
          more := more + {f[c].control.value};
        }
        assert forall x :: x in more <==> NamedIn(f[c], x);
        cross := cross + more;
      }
    }
  }

  function LastOf(lastUse: map<nat, nat>, id: nat): nat {
    if id in lastUse then lastUse[id] else 0
  }

  /** No value of the block is read after its entry, at positions below `n`. */
  ghost predicate Bounds(f: seq<Block>, b: nat, lastUse: map<nat, nat>, n: nat)
    requires b < |f|
  {
    forall j, at :: 0 <= j < |f[b].values| && j < at < n && ReadAt(f, b, f[b].values[j].id, at) ==>
      at <= LastOf(lastUse, f[b].values[j].id)
  }

  /** Every entry is a read of that value. */
  ghost predicate Tight(f: seq<Block>, b: nat, lastUse: map<nat, nat>)
    requires b < |f|
  {
    forall id :: id in lastUse ==> lastUse[id] <= |f[b].values| && ReadAt(f, b, id, lastUse[id])
  }

  /** Raises entries of values of the block to `at`. */
  function Raise(blk: Block, lastUse: map<nat, nat>, ids: set<nat>, at: nat): (r: map<nat, nat>)
    ensures forall x :: LastOf(r, x) >= LastOf(lastUse, x)
    ensures forall x :: x in ids && DefinedIn(blk, x) ==> LastOf(r, x) >= at
    ensures forall x :: LastOf(r, x) <= at || LastOf(r, x) == LastOf(lastUse, x)
    ensures forall x :: x in r ==> (x in lastUse && r[x] == lastUse[x]) || (x in ids && r[x] == at)
  {
    lastUse + map x | x in ids && DefinedIn(blk, x) && at > LastOf(lastUse, x) :: at
  }

  function ArgsDefinedBefore(blk: Block, i: nat): set<nat>
    requires i < |blk.values|
  {
    set x | x in blk.values[i].args && exists j :: 0 <= j < i && blk.values[j].id == x
  }

  method ValueUses(f: seq<Block>, b: nat) returns (lastUse: map<nat, nat>)
    requires b < |f| && Distinct(f[b])
    ensures Bounds(f, b, lastUse, |f[b].values|) && forall x :: LastOf(lastUse, x) <= |f[b].values|
    ensures Tight(f, b, lastUse)
  {
    lastUse := map[];
    var blk := f[b];
    for i := 0 to |blk.values|
      invariant Bounds(f, b, lastUse, i) && forall x :: LastOf(lastUse, x) <= |blk.values|
      invariant Tight(f, b, lastUse)
    {
      lastUse := Raise(blk, lastUse, ArgsDefinedBefore(blk, i), i);
    }
  }

  /** Phi arguments of the successors are read at the end of the block. */
  method EdgeUses(f: seq<Block>, b: nat, before: map<nat, nat>) returns (lastUse: map<nat, nat>)
    requires b < |f| && Tight(f, b, before)
    requires forall x :: LastOf(before, x) <= |f[b].values|
    ensures Tight(f, b, lastUse) && forall x :: LastOf(before, x) <= LastOf(lastUse, x) <= |f[b].values|
    ensures forall l, x ::
              0 <= l < |f[b].succs| && f[b].succs[l] < |f| && PhiReads(f[f[b].succs[l]], x) && DefinedIn(f[b], x) ==>
                LastOf(lastUse, x) >= |f[b].values|
  {
    var blk := f[b];
    lastUse := before;
    for k := 0 to |blk.succs|
      invariant forall x :: LastOf(before, x) <= LastOf(lastUse, x) <= |blk.values|
      invariant forall l, x ::
                  0 <= l < k && blk.succs[l] < |f| && PhiReads(f[blk.succs[l]], x) && DefinedIn(blk, x) ==>
                    LastOf(lastUse, x) >= |blk.values|
      invariant Tight(f, b, lastUse)
    {
      if blk.succs[k] < |f| {
        var ids := ReadsOf(f[blk.succs[k]], true);
        assert forall x :: x in ids <==> PhiReads(f[blk.succs[k]], x);
        lastUse := Raise(blk, lastUse, ids, |blk.values|);
      }
    }
  }

  /** The last reads of the values of a block, those on its outgoing edges included. */
  method LastUses(f: seq<Block>, b: nat) returns (lastUse: map<nat, nat>)
    requires b < |f| && Distinct(f[b])
    ensures Bounds(f, b, lastUse, |f[b].values| + 1) && forall x :: LastOf(lastUse, x) <= |f[b].values|
    ensures Tight(f, b, lastUse)
  {
    lastUse := ValueUses(f, b);
    if f[b].control.Some? {
      lastUse := Raise(f[b], lastUse, {f[b].control.value}, |f[b].values|);
    }
    ghost var before := lastUse;
    lastUse := EdgeUses(f, b, lastUse);
    EndReads(f, b, before, lastUse);
  }

  lemma EndReads(f: seq<Block>, b: nat, before: map<nat, nat>, lastUse: map<nat, nat>)
    requires b < |f| && Bounds(f, b, before, |f[b].values|) && forall x :: LastOf(before, x) <= LastOf(lastUse, x)
    requires f[b].control.Some? && DefinedIn(f[b], f[b].control.value) ==>
               LastOf(before, f[b].control.value) >= |f[b].values|
    requires forall l, x ::
               0 <= l < |f[b].succs| && f[b].succs[l] < |f| && PhiReads(f[f[b].succs[l]], x) && DefinedIn(f[b], x) ==>
               LastOf(lastUse, x) >= |f[b].values|
    ensures Bounds(f, b, lastUse, |f[b].values| + 1)
  {
    forall j, at | 0 <= j < |f[b].values| && j < at < |f[b].values| + 1 && ReadAt(f, b, f[b].values[j].id, at)
      ensures at <= LastOf(lastUse, f[b].values[j].id)
    {
      assert DefinedIn(f[b], f[b].values[j].id);
    }
  }

  // ----- the register pools -----

  datatype Entry = Entry(owner: nat, lastIdx: nat)

  datatype Pool = Pool(free: seq<Reg>, active: map<Reg, Entry>)

  /** Registers are free or active, never both, and all are allowed. */
  ghost predicate PoolOk(p: Pool, allowed: set<Reg>) {
    && (forall i :: 0 <= i < |p.free| ==> p.free[i] in allowed && p.free[i] !in p.active)
    && (forall i, j :: 0 <= i < j < |p.free| ==> p.free[i] != p.free[j])
    && (forall r :: r in p.active ==> r in allowed)
  }

  /** Registers whose value is last read before `idx` have become free, behind those that were. */
  ghost predicate ExpiredTo(p: Pool, q: Pool, idx: nat) {
    && (forall r :: r in q.active <==> r in p.active && p.active[r].lastIdx >= idx)
    && (forall r :: r in q.active ==> q.active[r] == p.active[r])
    && p.free <= q.free
    && (forall k :: |p.free| <= k < |q.free| ==> q.free[k] in p.active && p.active[q.free[k]].lastIdx < idx)
    && (forall r :: r in p.active && p.active[r].lastIdx < idx ==> r in q.free)
  }

  /** Registers whose value is last read before `idx` become free, in any order. */
  method Expire(p: Pool, idx: nat, ghost allowed: set<Reg>) returns (q: Pool)
    requires PoolOk(p, allowed)
    ensures PoolOk(q, allowed) && ExpiredTo(p, q, idx)
  {
    q := p;
    var todo := p.active.Keys;
    while todo != {}
      invariant todo <= p.active.Keys && PoolOk(q, allowed) && p.free <= q.free
      invariant forall k :: |p.free| <= k < |q.free| ==> q.free[k] in p.active && p.active[q.free[k]].lastIdx < idx
      invariant forall r :: r in p.active && r !in todo && p.active[r].lastIdx < idx ==> r in q.free
      invariant forall r :: r in q.active <==> r in p.active && (r in todo || p.active[r].lastIdx >= idx)
      invariant forall r :: r in q.active ==> q.active[r] == p.active[r]
      decreases todo
    {
      var r :| r in todo;
      todo := todo - {r};
      if p.active[r].lastIdx < idx {
        q := Pool(q.free + [r], q.active - {r});
      }
    }
  }

  /** The registers of `pool` outside `reserved`, in order. */
  ghost function Others(pool: seq<Reg>, reserved: set<Reg>): seq<Reg> {
    if pool == [] then []
    else
      var n := |pool| - 1;
      Others(pool[..n], reserved) + if pool[n] in reserved then [] else [pool[n]]
  }

  /** The registers of a pool that are not reserved. */
  method Unreserved(pool: seq<Reg>, reserved: set<Reg>) returns (free: seq<Reg>)
    requires forall i, j :: 0 <= i < j < |pool| ==> pool[i] != pool[j]
    ensures PoolOk(Pool(free, map[]), (set r | r in pool) - reserved)
    ensures free == Others(pool, reserved) && forall r :: r in pool && r !in reserved ==> r in free
  {
    free := [];
    for k := 0 to |pool|
      invariant free == Others(pool[..k], reserved) && forall r :: r in pool[..k] && r !in reserved ==> r in free
      invariant forall i :: 0 <= i < |free| ==> free[i] in pool[..k] && free[i] !in reserved
      invariant forall i, j :: 0 <= i < j < |free| ==> free[i] != free[j]
    {
      assert pool[..k + 1] == pool[..k] + [pool[k]] && pool[..k + 1][..k] == pool[..k];
      if pool[k] !in reserved {
        assert pool[k] !in pool[..k];
        free := free + [pool[k]];
      }
    }
    assert pool[..|pool|] == pool;
  }

  // ----- what the scan keeps -----

  /** The pool of the value's class holds its register for it. */
  predicate Holds(p: Pool, r: Reg, id: nat, last: nat) {
    r in p.active && p.active[r] == Entry(id, last)
  }

  predicate Homed(blk: Block, given: map<nat, Reg>, j: nat)
    requires j < |blk.values|
  {
    blk.values[j].id in given
  }

  /** Values before `i` that are still read at `i` or later hold their registers. */
  ghost predicate Holding(blk: Block, i: nat, lastUse: map<nat, nat>, given: map<nat, Reg>, gp: Pool, fp: Pool)
    requires i <= |blk.values|
  {
    forall j :: 0 <= j < i && Homed(blk, given, j) && LastOf(lastUse, blk.values[j].id) >= i ==>
      Holds(if blk.values[j].kind.Float? then fp else gp, given[blk.values[j].id], blk.values[j].id,
            LastOf(lastUse, blk.values[j].id))
  }

  /** Two values have one register only if the first is last read before the second is defined. */
  ghost predicate NoShare(blk: Block, i: nat, lastUse: map<nat, nat>, given: map<nat, Reg>)
    requires i <= |blk.values|
  {
    forall j, k ::
      0 <= j < k < i && Homed(blk, given, j) && Homed(blk, given, k)
        && given[blk.values[j].id] == given[blk.values[k].id] ==>
      LastOf(lastUse, blk.values[j].id) < k
  }

  predicate CallWithin(blk: Block, j: nat, last: nat) {
    exists x :: j < x <= last && x < |blk.values| && blk.values[x].calls
  }

  /** What may be said of a value with a register. */
  ghost predicate HomeOk(blk: Block, j: nat, cross: set<nat>, lastUse: map<nat, nat>, given: map<nat, Reg>,
                         gpAllowed: set<Reg>, fpAllowed: set<Reg>)
    requires j < |blk.values|
  {
    var v := blk.values[j];
    Homed(blk, given, j) ==>
      && v.eligible && v.id !in cross && LastOf(lastUse, v.id) > j && !CallWithin(blk, j, LastOf(lastUse, v.id))
      && !v.kind.Neither? && given[v.id] in if v.kind.Float? then fpAllowed else gpAllowed
  }

  /** The scan up to position `i`. */
  ghost predicate Scanned(blk: Block, i: nat, cross: set<nat>, lastUse: map<nat, nat>, given: map<nat, Reg>, gp: Pool,
                          fp: Pool, gpAllowed: set<Reg>, fpAllowed: set<Reg>) {
    && Distinct(blk) && i <= |blk.values| && gpAllowed !! fpAllowed && PoolOk(gp, gpAllowed) && PoolOk(fp, fpAllowed)
    && Holding(blk, i, lastUse, given, gp, fp) && NoShare(blk, i, lastUse, given)
    && (forall j :: 0 <= j < i ==> HomeOk(blk, j, cross, lastUse, given, gpAllowed, fpAllowed))
    && (forall j :: i <= j < |blk.values| ==> !Homed(blk, given, j))
    && (forall id :: id in given ==> DefinedIn(blk, id))
  }

  /** A value without a register. */
  lemma ScanSkip(blk: Block, i: nat, cross: set<nat>, lastUse: map<nat, nat>, given: map<nat, Reg>, gp: Pool, fp: Pool,
                 gpAllowed: set<Reg>, fpAllowed: set<Reg>)
    requires Scanned(blk, i, cross, lastUse, given, gp, fp, gpAllowed, fpAllowed) && i < |blk.values|
    ensures Scanned(blk, i + 1, cross, lastUse, given, gp, fp, gpAllowed, fpAllowed)
  {
  }

  /** Releasing what is no longer read keeps the rest. */
  lemma ScanExpire(blk: Block, i: nat, cross: set<nat>, lastUse: map<nat, nat>, given: map<nat, Reg>, gp: Pool,
                   fp: Pool, gp': Pool, fp': Pool, gpAllowed: set<Reg>, fpAllowed: set<Reg>)
    requires Scanned(blk, i, cross, lastUse, given, gp, fp, gpAllowed, fpAllowed)
    requires PoolOk(gp', gpAllowed) && PoolOk(fp', fpAllowed)
    requires forall r ::
               r in gp.active && gp.active[r].lastIdx >= i ==> r in gp'.active && gp'.active[r] == gp.active[r]
    requires forall r ::
               r in fp.active && fp.active[r].lastIdx >= i ==> r in fp'.active && fp'.active[r] == fp.active[r]
    ensures Scanned(blk, i, cross, lastUse, given, gp', fp', gpAllowed, fpAllowed)
  {
  }

  /** The pool after its first free register is given to value `id`. */
  function Given(p: Pool, id: nat, last: nat): Pool
    requires p.free != []
  {
    Pool(p.free[1..], p.active[p.free[0] := Entry(id, last)])
  }

  lemma GivenOk(p: Pool, id: nat, last: nat, allowed: set<Reg>)
    requires PoolOk(p, allowed) && p.free != []
    ensures PoolOk(Given(p, id, last), allowed)
  {
    var q := Given(p, id, last);
    forall i | 0 <= i < |q.free|
      ensures q.free[i] in allowed && q.free[i] !in q.active
    {
      assert q.free[i] == p.free[i + 1];
    }
  }

  /** Giving the value at `i` the first free register of its pool. */
  lemma ScanTake(blk: Block, i: nat, cross: set<nat>, lastUse: map<nat, nat>, given: map<nat, Reg>, gp: Pool, fp: Pool,
                 gpAllowed: set<Reg>, fpAllowed: set<Reg>)
    requires Scanned(blk, i, cross, lastUse, given, gp, fp, gpAllowed, fpAllowed) && i < |blk.values|
    requires var v := blk.values[i];
             && v.eligible && v.id !in cross && LastOf(lastUse, v.id) > i
             && !CallWithin(blk, i, LastOf(lastUse, v.id)) && !v.kind.Neither?
             && (if v.kind.Float? then fp.free else gp.free) != []
    ensures var v := blk.values[i];
            var last := LastOf(lastUse, v.id);
            if v.kind.Float? then
              Scanned(blk, i + 1, cross, lastUse, given[v.id := fp.free[0]], gp, Given(fp, v.id, last),
                      gpAllowed, fpAllowed)
            else
              Scanned(blk, i + 1, cross, lastUse, given[v.id := gp.free[0]], Given(gp, v.id, last), fp,
                      gpAllowed, fpAllowed)
  {
    var v := blk.values[i];
    var last := LastOf(lastUse, v.id);
    if v.kind.Float? {
      GivenOk(fp, v.id, last, fpAllowed);
      TakeKeeps(blk, i, cross, lastUse, given, gp, fp, gp, Given(fp, v.id, last), gpAllowed, fpAllowed, fp.free[0]);
    } else {
      GivenOk(gp, v.id, last, gpAllowed);
      TakeKeeps(blk, i, cross, lastUse, given, gp, fp, Given(gp, v.id, last), fp, gpAllowed, fpAllowed, gp.free[0]);
    }
  }

  lemma TakeKeeps(blk: Block, i: nat, cross: set<nat>, lastUse: map<nat, nat>, given: map<nat, Reg>, gp: Pool, fp: Pool,
                  gp': Pool, fp': Pool, gpAllowed: set<Reg>, fpAllowed: set<Reg>, r: Reg)
    requires Scanned(blk, i, cross, lastUse, given, gp, fp, gpAllowed, fpAllowed) && i < |blk.values|
    requires PoolOk(gp', gpAllowed) && PoolOk(fp', fpAllowed)
    requires r !in gp.active && r !in fp.active
    requires forall q :: q in gp.active ==> q in gp'.active && gp'.active[q] == gp.active[q]
    requires forall q :: q in fp.active ==> q in fp'.active && fp'.active[q] == fp.active[q]
    requires Holds(if blk.values[i].kind.Float? then fp' else gp', r, blk.values[i].id,
                   LastOf(lastUse, blk.values[i].id))
    requires HomeOk(blk, i, cross, lastUse, given[blk.values[i].id := r], gpAllowed, fpAllowed)
    ensures Scanned(blk, i + 1, cross, lastUse, given[blk.values[i].id := r], gp', fp', gpAllowed, fpAllowed)
  {
    var more := given[blk.values[i].id := r];
    HomedElsewhere(blk, i, given, more, r);
    HoldingTake(blk, i, lastUse, given, gp, fp, gp', fp', r);
    NoShareTake(blk, i, cross, lastUse, given, gp, fp, gpAllowed, fpAllowed, r);
    HomesTake(blk, i, cross, lastUse, given, more, gpAllowed, fpAllowed, r);
  }

  lemma HomedElsewhere(blk: Block, i: nat, given: map<nat, Reg>, more: map<nat, Reg>, r: Reg)
    requires Distinct(blk) && i < |blk.values| && more == given[blk.values[i].id := r]
    requires (forall id :: id in given ==> DefinedIn(blk, id))
             && forall j :: i <= j < |blk.values| ==> !Homed(blk, given, j)
    ensures forall j :: i + 1 <= j < |blk.values| ==> !Homed(blk, more, j)
    ensures forall id :: id in more ==> DefinedIn(blk, id)
  {
    assert DefinedIn(blk, blk.values[i].id);
    forall j | i + 1 <= j < |blk.values|
      ensures !Homed(blk, more, j)
    {
      assert !Homed(blk, given, j) && blk.values[j].id != blk.values[i].id;
    }
  }

  lemma HoldingTake(blk: Block, i: nat, lastUse: map<nat, nat>, given: map<nat, Reg>, gp: Pool, fp: Pool, gp': Pool,
                    fp': Pool, r: Reg)
    requires Distinct(blk) && i < |blk.values| && Holding(blk, i, lastUse, given, gp, fp)
    requires forall q :: q in gp.active ==> q in gp'.active && gp'.active[q] == gp.active[q]
    requires forall q :: q in fp.active ==> q in fp'.active && fp'.active[q] == fp.active[q]
    requires Holds(if blk.values[i].kind.Float? then fp' else gp', r, blk.values[i].id,
                   LastOf(lastUse, blk.values[i].id))
    ensures Holding(blk, i + 1, lastUse, given[blk.values[i].id := r], gp', fp')
  {
    var more := given[blk.values[i].id := r];
    forall j | 0 <= j < i + 1 && Homed(blk, more, j) && LastOf(lastUse, blk.values[j].id) >= i + 1
      ensures Holds(if blk.values[j].kind.Float? then fp' else gp', more[blk.values[j].id], blk.values[j].id,
                    LastOf(lastUse, blk.values[j].id))
    {
      if j < i {
        assert Homed(blk, given, j);
      }
    }
  }

  lemma NoShareTake(blk: Block, i: nat, cross: set<nat>, lastUse: map<nat, nat>, given: map<nat, Reg>, gp: Pool,
                    fp: Pool, gpAllowed: set<Reg>, fpAllowed: set<Reg>, r: Reg)
    requires Scanned(blk, i, cross, lastUse, given, gp, fp, gpAllowed, fpAllowed) && i < |blk.values|
             && r !in gp.active && r !in fp.active
    ensures NoShare(blk, i + 1, lastUse, given[blk.values[i].id := r])
  {
    var more := given[blk.values[i].id := r];
    forall j, k |
      0 <= j < k < i + 1 && Homed(blk, more, j) && Homed(blk, more, k)
        && more[blk.values[j].id] == more[blk.values[k].id]
      ensures LastOf(lastUse, blk.values[j].id) < k
    {
      assert Homed(blk, given, j);
      if k < i {
        assert Homed(blk, given, k);
      }
    }
  }

  lemma HomesTake(blk: Block, i: nat, cross: set<nat>, lastUse: map<nat, nat>, given: map<nat, Reg>,
                  more: map<nat, Reg>, gpAllowed: set<Reg>, fpAllowed: set<Reg>, r: Reg)
    requires Distinct(blk) && i < |blk.values| && more == given[blk.values[i].id := r]
    requires forall j :: 0 <= j < i ==> HomeOk(blk, j, cross, lastUse, given, gpAllowed, fpAllowed)
    requires HomeOk(blk, i, cross, lastUse, more, gpAllowed, fpAllowed)
    ensures forall j :: 0 <= j < i + 1 ==> HomeOk(blk, j, cross, lastUse, more, gpAllowed, fpAllowed)
  {
    forall j | 0 <= j < i
      ensures HomeOk(blk, j, cross, lastUse, more, gpAllowed, fpAllowed)
    {
      assert HomeOk(blk, j, cross, lastUse, given, gpAllowed, fpAllowed);
    }
  }

  // ----- the scan -----

  method HasCall(blk: Block, i: nat, last: nat) returns (hit: bool)
    ensures hit <==> CallWithin(blk, i, last)
  {
    var j := i + 1;
    while j <= last && j < |blk.values|
      invariant i < j && forall x :: i < x < j && x <= last && x < |blk.values| ==> !blk.values[x].calls
    {
      if blk.values[j].calls {
        return true;
      }
      j := j + 1;
    }
    hit := false;
  }

  /** The pools and the registers given so far. */
  datatype Scan = Scan(gp: Pool, fp: Pool, given: map<nat, Reg>)

  /** May the value at `i` have a register? */
  predicate Wants(blk: Block, i: nat, cross: set<nat>, last: map<nat, nat>)
    requires i < |blk.values|
  {
    var v := blk.values[i];
    && v.eligible && v.id !in cross && LastOf(last, v.id) > i && !CallWithin(blk, i, LastOf(last, v.id))
    && !v.kind.Neither?
  }

  /** If so, it gets the first that is free in its pool. */
  ghost function Served(blk: Block, i: nat, cross: set<nat>, last: map<nat, nat>, s: Scan): Scan
    requires i < |blk.values|
  {
    var v := blk.values[i];
    if !Wants(blk, i, cross, last) || (if v.kind.Float? then s.fp.free else s.gp.free) == [] then s
    else if v.kind.Float? then Scan(s.gp, Given(s.fp, v.id, LastOf(last, v.id)), s.given[v.id := s.fp.free[0]])
    else Scan(Given(s.gp, v.id, LastOf(last, v.id)), s.fp, s.given[v.id := s.gp.free[0]])
  }

  /** One value: registers no longer read become free, in some order, then the value is served. */
  ghost predicate Steps(blk: Block, i: nat, cross: set<nat>, last: map<nat, nat>, s: Scan, t: Scan)
    requires i < |blk.values|
  {
    exists gp, fp ::
      ExpiredTo(s.gp, gp, i) && ExpiredTo(s.fp, fp, i) && t == Served(blk, i, cross, last, Scan(gp, fp, s.given))
  }

  /** The scan of the first values, state by state. */
  ghost predicate Traced(blk: Block, cross: set<nat>, last: map<nat, nat>, trace: seq<Scan>) {
    && 0 < |trace| <= |blk.values| + 1
    && forall i {:trigger trace[i]} :: 0 < i < |trace| ==> Steps(blk, i - 1, cross, last, trace[i - 1], trace[i])
  }

  // ----- no register is left unused -----

  /** Every allowed register is free or active. */
  ghost predicate NoneMissing(p: Pool, allowed: set<Reg>) {
    forall r :: r in allowed ==> r in p.free || r in p.active
  }

  /** Value `k` has register `r` and is read at `i` or later. */
  ghost predicate HeldBy(blk: Block, k: nat, i: nat, last: map<nat, nat>, given: map<nat, Reg>, r: Reg)
    requires k < |blk.values|
  {
    Homed(blk, given, k) && given[blk.values[k].id] == r && LastOf(last, blk.values[k].id) >= i
  }

  ghost predicate Held(blk: Block, i: nat, last: map<nat, nat>, given: map<nat, Reg>, r: Reg)
    requires i <= |blk.values|
  {
    exists k :: 0 <= k < i && HeldBy(blk, k, i, last, given, r)
  }

  /** The owner of an active register. */
  ghost predicate Owner(blk: Block, k: nat, last: map<nat, nat>, given: map<nat, Reg>, r: Reg, e: Entry)
    requires k < |blk.values|
  {
    Homed(blk, given, k) && given[blk.values[k].id] == r && LastOf(last, blk.values[k].id) == e.lastIdx
  }

  ghost predicate Owned(blk: Block, i: nat, last: map<nat, nat>, given: map<nat, Reg>, p: Pool)
    requires i <= |blk.values|
  {
    forall r :: r in p.active ==> exists k :: 0 <= k < i && Owner(blk, k, last, given, r, p.active[r])
  }

  /** A value that may have a register and has none found all of its pool held by earlier values. */
  ghost predicate FullAt(blk: Block, i: nat, cross: set<nat>, last: map<nat, nat>, given: map<nat, Reg>,
                         gpAllowed: set<Reg>, fpAllowed: set<Reg>)
    requires i < |blk.values|
  {
    Wants(blk, i, cross, last) && !Homed(blk, given, i) ==>
      forall r :: r in (if blk.values[i].kind.Float? then fpAllowed else gpAllowed) ==> Held(blk, i, last, given, r)
  }

  /** The scan of the first `i` values left no register unused. */
  ghost predicate Full(blk: Block, i: nat, cross: set<nat>, last: map<nat, nat>, s: Scan, gpAllowed: set<Reg>,
                       fpAllowed: set<Reg>) {
    && i <= |blk.values| && NoneMissing(s.gp, gpAllowed) && NoneMissing(s.fp, fpAllowed)
    && Owned(blk, i, last, s.given, s.gp) && Owned(blk, i, last, s.given, s.fp)
    && (forall j {:trigger FullAt(blk, j, cross, last, s.given, gpAllowed, fpAllowed)} ::
          0 <= j < i ==> FullAt(blk, j, cross, last, s.given, gpAllowed, fpAllowed))
  }

  lemma ExpireNoneMissing(p: Pool, q: Pool, idx: nat, allowed: set<Reg>)
    requires NoneMissing(p, allowed) && ExpiredTo(p, q, idx)
    ensures NoneMissing(q, allowed)
  {
    forall r | r in allowed
      ensures r in q.free || r in q.active
    {
      if r in p.free {
        var k :| 0 <= k < |p.free| && p.free[k] == r;
        assert q.free[k] == r;
      }
    }
  }

  lemma GivenNoneMissing(p: Pool, id: nat, last: nat, allowed: set<Reg>)
    requires NoneMissing(p, allowed) && p.free != []
    ensures NoneMissing(Given(p, id, last), allowed)
  {
    forall r | r in allowed && r in p.free && r != p.free[0]
      ensures r in p.free[1..]
    {
      var k :| 0 <= k < |p.free| && p.free[k] == r;
      assert p.free[1..][k - 1] == r;
    }
  }

  lemma ExpireOwned(blk: Block, i: nat, last: map<nat, nat>, given: map<nat, Reg>, p: Pool, q: Pool)
    requires i <= |blk.values| && Owned(blk, i, last, given, p) && ExpiredTo(p, q, i)
    ensures Owned(blk, i, last, given, q)
    ensures forall r :: r in q.active ==> Held(blk, i, last, given, r)
  {
    forall r | r in q.active
      ensures Held(blk, i, last, given, r)
      ensures exists k :: 0 <= k < i && Owner(blk, k, last, given, r, q.active[r])
    {
      var k :| 0 <= k < i && Owner(blk, k, last, given, r, p.active[r]);
      assert HeldBy(blk, k, i, last, given, r);
    }
  }

  /** What was held stays held when a later value gets a register. */
  lemma OwnedOn(blk: Block, i: nat, last: map<nat, nat>, given: map<nat, Reg>, more: map<nat, Reg>, p: Pool)
    requires Distinct(blk) && i < |blk.values| && Owned(blk, i, last, given, p)
    requires more == given || more.Keys == given.Keys + {blk.values[i].id}
    requires forall id :: id in given && id != blk.values[i].id ==> more[id] == given[id]
    ensures Owned(blk, i + 1, last, more, p)
  {
    forall r | r in p.active
      ensures exists k :: 0 <= k < i + 1 && Owner(blk, k, last, more, r, p.active[r])
    {
      var k :| 0 <= k < i && Owner(blk, k, last, given, r, p.active[r]);
      assert blk.values[k].id != blk.values[i].id;
      assert Owner(blk, k, last, more, r, p.active[r]);
    }
  }

  lemma OwnedMore(blk: Block, i: nat, last: map<nat, nat>, given: map<nat, Reg>, p: Pool)
    requires Distinct(blk) && i < |blk.values| && Owned(blk, i, last, given, p) && p.free != []
    ensures var v := blk.values[i];
            Owned(blk, i + 1, last, given[v.id := p.free[0]], Given(p, v.id, LastOf(last, v.id)))
  {
    var v := blk.values[i];
    var more := given[v.id := p.free[0]];
    var q := Given(p, v.id, LastOf(last, v.id));
    OwnedOn(blk, i, last, given, more, p);
    forall r | r in q.active
      ensures exists k :: 0 <= k < i + 1 && Owner(blk, k, last, more, r, q.active[r])
    {
      if r == p.free[0] {
        assert Owner(blk, i, last, more, r, q.active[r]);
      } else {
        assert r in p.active;
      }
    }
  }

  lemma FullOn(blk: Block, i: nat, j: nat, cross: set<nat>, last: map<nat, nat>, given: map<nat, Reg>,
               more: map<nat, Reg>, gpAllowed: set<Reg>, fpAllowed: set<Reg>)
    requires Distinct(blk) && j < i < |blk.values| && FullAt(blk, j, cross, last, given, gpAllowed, fpAllowed)
    requires more == given || more.Keys == given.Keys + {blk.values[i].id}
    requires forall id :: id in given && id != blk.values[i].id ==> more[id] == given[id]
    ensures FullAt(blk, j, cross, last, more, gpAllowed, fpAllowed)
  {
    if Wants(blk, j, cross, last) && !Homed(blk, more, j) {
      forall r | r in (if blk.values[j].kind.Float? then fpAllowed else gpAllowed)
        ensures Held(blk, j, last, more, r)
      {
        assert Held(blk, j, last, given, r);
        var k :| 0 <= k < j && HeldBy(blk, k, j, last, given, r);
        assert blk.values[k].id != blk.values[i].id;
        assert HeldBy(blk, k, j, last, more, r);
      }
    }
  }

  /** A value that is served, or finds nothing free. */
  lemma FullHere(blk: Block, i: nat, cross: set<nat>, last: map<nat, nat>, s: Scan, gpAllowed: set<Reg>,
                 fpAllowed: set<Reg>)
    requires i < |blk.values| && NoneMissing(s.gp, gpAllowed) && NoneMissing(s.fp, fpAllowed)
    requires forall r :: r in s.gp.active || r in s.fp.active ==> Held(blk, i, last, s.given, r)
    ensures FullAt(blk, i, cross, last, Served(blk, i, cross, last, s).given, gpAllowed, fpAllowed)
  {
  }

  lemma FullNext(blk: Block, i: nat, cross: set<nat>, last: map<nat, nat>, s: Scan, gp: Pool, fp: Pool,
                 gpAllowed: set<Reg>, fpAllowed: set<Reg>)
    requires Distinct(blk) && i < |blk.values| && Full(blk, i, cross, last, s, gpAllowed, fpAllowed)
    requires ExpiredTo(s.gp, gp, i) && ExpiredTo(s.fp, fp, i) && blk.values[i].id !in s.given
    ensures Full(blk, i + 1, cross, last, Served(blk, i, cross, last, Scan(gp, fp, s.given)), gpAllowed, fpAllowed)
  {
    var mid := Scan(gp, fp, s.given);
    var t := Served(blk, i, cross, last, mid);
    ExpireNoneMissing(s.gp, gp, i, gpAllowed);
    ExpireNoneMissing(s.fp, fp, i, fpAllowed);
    ExpireOwned(blk, i, last, s.given, s.gp, gp);
    ExpireOwned(blk, i, last, s.given, s.fp, fp);
    FullHere(blk, i, cross, last, mid, gpAllowed, fpAllowed);
    ServedPools(blk, i, cross, last, mid, gpAllowed, fpAllowed);
    forall j | 0 <= j < i + 1
      ensures FullAt(blk, j, cross, last, t.given, gpAllowed, fpAllowed)
    {
      if j < i {
        assert FullAt(blk, j, cross, last, s.given, gpAllowed, fpAllowed);
        FullOn(blk, i, j, cross, last, s.given, t.given, gpAllowed, fpAllowed);
      }
    }
  }

  lemma ServedPools(blk: Block, i: nat, cross: set<nat>, last: map<nat, nat>, s: Scan, gpAllowed: set<Reg>,
                    fpAllowed: set<Reg>)
    requires Distinct(blk) && i < |blk.values| && NoneMissing(s.gp, gpAllowed) && NoneMissing(s.fp, fpAllowed)
    requires Owned(blk, i, last, s.given, s.gp) && Owned(blk, i, last, s.given, s.fp)
    ensures var t := Served(blk, i, cross, last, s);
            && NoneMissing(t.gp, gpAllowed) && NoneMissing(t.fp, fpAllowed)
            && Owned(blk, i + 1, last, t.given, t.gp) && Owned(blk, i + 1, last, t.given, t.fp)
  {
    var v := blk.values[i];
    var t := Served(blk, i, cross, last, s);
    if t == s {
      OwnedOn(blk, i, last, s.given, s.given, s.gp);
      OwnedOn(blk, i, last, s.given, s.given, s.fp);
    } else if v.kind.Float? {
      GivenNoneMissing(s.fp, v.id, LastOf(last, v.id), fpAllowed);
      OwnedOn(blk, i, last, s.given, t.given, s.gp);
      OwnedMore(blk, i, last, s.given, s.fp);
    } else {
      GivenNoneMissing(s.gp, v.id, LastOf(last, v.id), gpAllowed);
      OwnedOn(blk, i, last, s.given, t.given, s.fp);
      OwnedMore(blk, i, last, s.given, s.gp);
    }
  }

  // ----- one block -----

  /** Value `i`: registers no longer read are released, then it gets one if it may have one and one is free. */
  method ScanValue(blk: Block, i: nat, cross: set<nat>, last: map<nat, nat>, s: Scan, ghost gpAllowed: set<Reg>,
                   ghost fpAllowed: set<Reg>)
    returns (t: Scan)
    requires i < |blk.values| && Scanned(blk, i, cross, last, s.given, s.gp, s.fp, gpAllowed, fpAllowed)
    requires Full(blk, i, cross, last, s, gpAllowed, fpAllowed)
    ensures Scanned(blk, i + 1, cross, last, t.given, t.gp, t.fp, gpAllowed, fpAllowed)
    ensures Full(blk, i + 1, cross, last, t, gpAllowed, fpAllowed) && Steps(blk, i, cross, last, s, t)
  {
    var gp := Expire(s.gp, i, gpAllowed);
    var fp := Expire(s.fp, i, fpAllowed);
    ServedScanned(blk, i, cross, last, s, gp, fp, gpAllowed, fpAllowed);
    FullNext(blk, i, cross, last, s, gp, fp, gpAllowed, fpAllowed);
    t := Scan(gp, fp, s.given);
    var v := blk.values[i];
    var end := LastOf(last, v.id);
    if v.id in cross || end <= i || !v.eligible {
      return;
    }
    var hit := HasCall(blk, i, end);
    if hit || v.kind.Neither? || (if v.kind.Float? then fp.free else gp.free) == [] {
      return;
    }
    if v.kind.Float? {
      t := Scan(gp, Given(fp, v.id, end), s.given[v.id := fp.free[0]]);
    } else {
      t := Scan(Given(gp, v.id, end), fp, s.given[v.id := gp.free[0]]);
    }
  }

  lemma ServedScanned(blk: Block, i: nat, cross: set<nat>, last: map<nat, nat>, s: Scan, gp: Pool, fp: Pool,
                      gpAllowed: set<Reg>, fpAllowed: set<Reg>)
    requires i < |blk.values| && Scanned(blk, i, cross, last, s.given, s.gp, s.fp, gpAllowed, fpAllowed)
    requires PoolOk(gp, gpAllowed) && PoolOk(fp, fpAllowed) && ExpiredTo(s.gp, gp, i) && ExpiredTo(s.fp, fp, i)
    ensures var t := Served(blk, i, cross, last, Scan(gp, fp, s.given));
            Scanned(blk, i + 1, cross, last, t.given, t.gp, t.fp, gpAllowed, fpAllowed)
  {
    ScanExpire(blk, i, cross, last, s.given, s.gp, s.fp, gp, fp, gpAllowed, fpAllowed);
    ScanSkip(blk, i, cross, last, s.given, gp, fp, gpAllowed, fpAllowed);
    if Wants(blk, i, cross, last) && (if blk.values[i].kind.Float? then fp.free else gp.free) != [] {
      ScanTake(blk, i, cross, last, s.given, gp, fp, gpAllowed, fpAllowed);
    }
  }

  /** All values of a block. */
  method ScanAll(blk: Block, cross: set<nat>, last: map<nat, nat>, start: Scan, ghost gpAllowed: set<Reg>,
                 ghost fpAllowed: set<Reg>)
    returns (s: Scan, ghost trace: seq<Scan>)
    requires Scanned(blk, 0, cross, last, start.given, start.gp, start.fp, gpAllowed, fpAllowed)
    requires Full(blk, 0, cross, last, start, gpAllowed, fpAllowed)
    ensures Scanned(blk, |blk.values|, cross, last, s.given, s.gp, s.fp, gpAllowed, fpAllowed)
    ensures Full(blk, |blk.values|, cross, last, s, gpAllowed, fpAllowed)
    ensures |trace| == |blk.values| + 1 && trace[0] == start && trace[|blk.values|] == s
    ensures Traced(blk, cross, last, trace)
  {
    s := start;
    trace := [s];
    for i := 0 to |blk.values|
      invariant Scanned(blk, i, cross, last, s.given, s.gp, s.fp, gpAllowed, fpAllowed)
      invariant Full(blk, i, cross, last, s, gpAllowed, fpAllowed)
      invariant |trace| == i + 1 && trace[i] == s && trace[0] == start && Traced(blk, cross, last, trace)
    {
      s := ScanValue(blk, i, cross, last, s, gpAllowed, fpAllowed);
      TraceOn(blk, cross, last, trace, s);
      trace := trace + [s];
    }
  }

  /** The registers given to the values of block `b`. */
  method ScanBlock(f: seq<Block>, b: nat, reserved: set<Reg>, pools: Pools)
    returns (given: map<nat, Reg>, lastUse: map<nat, nat>, ghost trace: seq<Scan>)
    requires b < |f| && Distinct(f[b]) && pools.Valid()
    ensures BlockScanned(f, b, reserved, pools, lastUse, given)
    ensures Tight(f, b, lastUse) && BlockFull(f, b, reserved, pools, lastUse, given)
    ensures ScannedAs(f, b, reserved, pools, lastUse, trace) && given == trace[|f[b].values|].given
  {
    var last := LastUses(f, b);
    lastUse := last;
    var cross := CrossBlock(f, b);
    ghost var gpAllowed, fpAllowed;
    var s;
    s, gpAllowed, fpAllowed := StartScan(reserved, pools);
    ScanEmpty(f[b], cross, last, s, gpAllowed, fpAllowed);
    s, trace := ScanAll(f[b], cross, last, s, gpAllowed, fpAllowed);
    given := s.given;
    AllScanned(f, b, cross, last, given, s.gp, s.fp, gpAllowed, fpAllowed, reserved, pools);
    AllFull(f, b, cross, last, s, gpAllowed, fpAllowed, reserved, pools);
  }

  lemma TraceOn(blk: Block, cross: set<nat>, last: map<nat, nat>, trace: seq<Scan>, s: Scan)
    requires Traced(blk, cross, last, trace) && |trace| <= |blk.values|
    requires Steps(blk, |trace| - 1, cross, last, trace[|trace| - 1], s)
    ensures Traced(blk, cross, last, trace + [s])
  {
  }

  /** The scan begins with all registers free, in the order of the pools, but for reserved ones and the cache. */
  ghost function FirstScan(reserved: set<Reg>, pools: Pools): Scan {
    var taken := reserved + if pools.cache.Some? then {pools.cache.value} else {};
    Scan(Pool(Others(pools.general, taken), map[]), Pool(Others(pools.float, reserved), map[]), map[])
  }

  /** The states of a scan of block `b`, first to last. */
  ghost predicate ScannedAs(f: seq<Block>, b: nat, reserved: set<Reg>, pools: Pools, lastUse: map<nat, nat>,
                            trace: seq<Scan>) {
    && b < |f| && |trace| == |f[b].values| + 1 && trace[0] == FirstScan(reserved, pools)
    && exists cross :: (forall x :: x in cross <==> IsCross(f, b, x)) && Traced(f[b], cross, lastUse, trace)
  }

  /** Nothing given yet; reserved registers and the one caching the module are not in the pools. */
  method StartScan(reserved: set<Reg>, pools: Pools)
    returns (s: Scan, ghost gpAllowed: set<Reg>, ghost fpAllowed: set<Reg>)
    requires pools.Valid()
    ensures s.given == map[] && s.gp.active == map[] && s.fp.active == map[]
    ensures PoolOk(s.gp, gpAllowed) && PoolOk(s.fp, fpAllowed) && gpAllowed !! fpAllowed
    ensures forall r :: r in gpAllowed <==> r in pools.general && r !in reserved && pools.cache != Some(r)
    ensures forall r :: r in fpAllowed <==> r in pools.float && r !in reserved
    ensures s == FirstScan(reserved, pools) && NoneMissing(s.gp, gpAllowed) && NoneMissing(s.fp, fpAllowed)
  {
    var taken := reserved + if pools.cache.Some? then {pools.cache.value} else {};
    var gpFree := Unreserved(pools.general, taken);
    var fpFree := Unreserved(pools.float, reserved);
    gpAllowed, fpAllowed := (set r | r in pools.general) - taken, (set r | r in pools.float) - reserved;
    s := Scan(Pool(gpFree, map[]), Pool(fpFree, map[]), map[]);
  }

  lemma ScanEmpty(blk: Block, cross: set<nat>, lastUse: map<nat, nat>, s: Scan, gpAllowed: set<Reg>,
                  fpAllowed: set<Reg>)
    requires Distinct(blk) && s.given == map[] && PoolOk(s.gp, gpAllowed) && PoolOk(s.fp, fpAllowed)
             && gpAllowed !! fpAllowed && NoneMissing(s.gp, gpAllowed) && NoneMissing(s.fp, fpAllowed)
             && s.gp.active == map[] && s.fp.active == map[]
    ensures Scanned(blk, 0, cross, lastUse, s.given, s.gp, s.fp, gpAllowed, fpAllowed)
    ensures Full(blk, 0, cross, lastUse, s, gpAllowed, fpAllowed)
  {
  }

  lemma AllScanned(f: seq<Block>, b: nat, cross: set<nat>, lastUse: map<nat, nat>, given: map<nat, Reg>, gp: Pool,
                   fp: Pool, gpAllowed: set<Reg>, fpAllowed: set<Reg>, reserved: set<Reg>, pools: Pools)
    requires b < |f| && Scanned(f[b], |f[b].values|, cross, lastUse, given, gp, fp, gpAllowed, fpAllowed)
    requires Bounds(f, b, lastUse, |f[b].values| + 1) && forall x :: x in cross <==> IsCross(f, b, x)
    requires forall r :: r in gpAllowed ==> r in pools.general && r !in reserved && pools.cache != Some(r)
    requires forall r :: r in fpAllowed ==> r in pools.float && r !in reserved
    requires pools.Valid()
    ensures BlockScanned(f, b, reserved, pools, lastUse, given)
  {
    forall j | 0 <= j < |f[b].values|
      ensures HomeSafe(f, b, j, reserved, pools, lastUse, given)
    {
      assert HomeOk(f[b], j, cross, lastUse, given, gpAllowed, fpAllowed);
    }
  }

  /** What the scan of a block promises. */
  ghost predicate BlockScanned(f: seq<Block>, b: nat, reserved: set<Reg>, pools: Pools, lastUse: map<nat, nat>,
                               given: map<nat, Reg>) {
    && b < |f| && Distinct(f[b]) && Bounds(f, b, lastUse, |f[b].values| + 1)
    && NoShare(f[b], |f[b].values|, lastUse, given)
    && (forall j :: 0 <= j < |f[b].values| ==> HomeSafe(f, b, j, reserved, pools, lastUse, given))
    && (forall id :: id in given ==> DefinedIn(f[b], id))
  }

  /** The register of a value: not reserved, not the one caching the module, of the right kind; the value is
      local, and no CALL comes between its definition and its last read. */
  ghost predicate HomeSafe(f: seq<Block>, b: nat, j: nat, reserved: set<Reg>, pools: Pools, lastUse: map<nat, nat>,
                           given: map<nat, Reg>)
    requires b < |f| && j < |f[b].values|
  {
    var v := f[b].values[j];
    Homed(f[b], given, j) ==>
      && v.eligible && !IsCross(f, b, v.id) && LastOf(lastUse, v.id) > j && !CallWithin(f[b], j, LastOf(lastUse, v.id))
      && given[v.id] !in reserved && pools.cache != Some(given[v.id])
      && given[v.id] in if v.kind.Float? then pools.float else pools.general
  }

  /** A local value of a register class whose operation writes a register, that is read later in its block with no
      CALL up to its last read, has a register, unless all registers of its pool that are neither reserved nor the
      cache are held by earlier values that are read here or later. */
  ghost predicate BlockFull(f: seq<Block>, b: nat, reserved: set<Reg>, pools: Pools, lastUse: map<nat, nat>,
                            given: map<nat, Reg>) {
    b < |f| && forall j {:trigger HomeOrFull(f, b, j, reserved, pools, lastUse, given)} ::
      0 <= j < |f[b].values| ==> HomeOrFull(f, b, j, reserved, pools, lastUse, given)
  }

  ghost predicate HomeOrFull(f: seq<Block>, b: nat, j: nat, reserved: set<Reg>, pools: Pools, lastUse: map<nat, nat>,
                             given: map<nat, Reg>)
    requires b < |f| && j < |f[b].values|
  {
    var v := f[b].values[j];
    v.eligible && !v.kind.Neither? && !IsCross(f, b, v.id) && LastOf(lastUse, v.id) > j
    && !CallWithin(f[b], j, LastOf(lastUse, v.id)) && !Homed(f[b], given, j) ==>
      forall r :: r in (if v.kind.Float? then pools.float else pools.general) && r !in reserved
                  && pools.cache != Some(r) ==>
        Held(f[b], j, lastUse, given, r)
  }

  lemma AllFull(f: seq<Block>, b: nat, cross: set<nat>, last: map<nat, nat>, s: Scan, gpAllowed: set<Reg>,
                fpAllowed: set<Reg>, reserved: set<Reg>, pools: Pools)
    requires b < |f| && Full(f[b], |f[b].values|, cross, last, s, gpAllowed, fpAllowed)
    requires forall x :: x in cross <==> IsCross(f, b, x)
    requires forall r :: r in gpAllowed <==> r in pools.general && r !in reserved && pools.cache != Some(r)
    requires forall r :: r in fpAllowed <==> r in pools.float && r !in reserved
    ensures BlockFull(f, b, reserved, pools, last, s.given)
  {
    forall j | 0 <= j < |f[b].values|
      ensures HomeOrFull(f, b, j, reserved, pools, last, s.given)
    {
      assert FullAt(f[b], j, cross, last, s.given, gpAllowed, fpAllowed);
    }
  }
}
