/** Stack slots shared by values whose lifetimes in a block do not meet. */
module SlotReuse {
  import opened Basics
  import opened Frame

  /** A value: `reusable` says that its operation is one whose uses are tracked; `args` are the
      values whose slots it reads, copies looked through. */
  datatype Value = Value(id: nat, typ: Type, reusable: bool, isPhi: bool, args: seq<nat>)

  /** `results` are the values a returning block hands back. */
  datatype Block = Block(values: seq<Value>, control: Option<nat>, results: seq<nat>)

  predicate DistinctIds(f: seq<Block>) {
    forall b, i, c, j ::
      0 <= b < |f| && 0 <= i < |f[b].values| && 0 <= c < |f| && 0 <= j < |f[c].values|
        && f[b].values[i].id == f[c].values[j].id ==>
        b == c && i == j
  }

  // ----- recorded uses -----

  /** Value `id` is read in the block at position `at`: where its reader stands, or at the end for
      edge copies, the control and the results. */
  predicate ReadAt(blk: Block, id: nat, at: nat) {
    || (at < |blk.values| && !blk.values[at].isPhi && id in blk.values[at].args)
    || (at == |blk.values| && (PhiReads(blk, id) || blk.control == Some(id) || id in blk.results))
  }

  predicate PhiReads(blk: Block, id: nat) {
    exists i :: 0 <= i < |blk.values| && blk.values[i].isPhi && id in blk.values[i].args
  }

  predicate DefinedIn(blk: Block, id: nat) {
    exists i :: 0 <= i < |blk.values| && blk.values[i].id == id
  }

  /** Value `id` is read by an argument or the control of a block other than its own. */
  ghost predicate IsCross(f: seq<Block>, id: nat) {
    exists b, c :: 0 <= b < |f| && 0 <= c < |f| && b != c && DefinedIn(f[b], id) && NamedIn(f[c], id)
  }

  predicate NamedIn(blk: Block, id: nat) {
    blk.control == Some(id) || exists i :: 0 <= i < |blk.values| && id in blk.values[i].args
  }

  method DefinitionBlocks(f: seq<Block>) returns (defBlock: map<nat, nat>)
    requires DistinctIds(f)
    ensures forall x :: x in defBlock ==> defBlock[x] < |f| && DefinedIn(f[defBlock[x]], x)
    ensures forall b, i ::
              0 <= b < |f| && 0 <= i < |f[b].values| ==>
                f[b].values[i].id in defBlock && defBlock[f[b].values[i].id] == b
  {
    defBlock := map[];
    for b := 0 to |f|
      invariant forall x :: x in defBlock ==> defBlock[x] < |f| && DefinedIn(f[defBlock[x]], x)
      invariant forall c, i ::
                  0 <= c < b && 0 <= i < |f[c].values| ==>
                    f[c].values[i].id in defBlock && defBlock[f[c].values[i].id] == c
    {
      for i := 0 to |f[b].values|
        invariant forall x :: x in defBlock ==> defBlock[x] < |f| && DefinedIn(f[defBlock[x]], x)
        invariant forall c, j ::
                    0 <= c < b && 0 <= j < |f[c].values| ==>
                      f[c].values[j].id in defBlock && defBlock[f[c].values[j].id] == c
        invariant forall j :: 0 <= j < i ==> f[b].values[j].id in defBlock && defBlock[f[b].values[j].id] == b
      {
        defBlock := defBlock[f[b].values[i].id := b];
      }
    }
  }

  /** Those of `ids` that are defined in a block other than `b`. */
  function Foreign(defBlock: map<nat, nat>, b: nat, ids: seq<nat>): set<nat> {
    set x | x in ids && x in defBlock && defBlock[x] != b
  }

  /** The values read outside their own block. */
  method CrossBlock(f: seq<Block>, defBlock: map<nat, nat>) returns (cross: set<nat>)
    requires DistinctIds(f)
    requires forall x :: x in defBlock ==> defBlock[x] < |f| && DefinedIn(f[defBlock[x]], x)
    requires forall b, i ::
               0 <= b < |f| && 0 <= i < |f[b].values| ==>
                 f[b].values[i].id in defBlock && defBlock[f[b].values[i].id] == b
    ensures forall x :: x in cross <==> IsCross(f, x)
  {
    cross := {};
    for b := 0 to |f|
      invariant forall x :: x in cross ==> IsCross(f, x)
      invariant forall c, x :: 0 <= c < b && NamedIn(f[c], x) && x in defBlock && defBlock[x] != c ==> x in cross
    {
      for i := 0 to |f[b].values|
        invariant forall x :: x in cross ==> IsCross(f, x)
        invariant forall c, x :: 0 <= c < b && NamedIn(f[c], x) && x in defBlock && defBlock[x] != c ==> x in cross
        invariant forall j, x ::
                    0 <= j < i && x in f[b].values[j].args && x in defBlock && defBlock[x] != b ==> x in cross
      {
        var more := Foreign(defBlock, b, f[b].values[i].args);
        forall x | x in more
          ensures IsCross(f, x)
        {
          assert NamedIn(f[b], x);
        }
        cross := cross + more;
      }
      if f[b].control.Some? && f[b].control.value in defBlock && defBlock[f[b].control.value] != b {
        assert NamedIn(f[b], f[b].control.value);
        cross := cross + {f[b].control.value};
      }
    }
    forall x | IsCross(f, x)
      ensures x in cross
    {
      var b, c :| 0 <= b < |f| && 0 <= c < |f| && b != c && DefinedIn(f[b], x) && NamedIn(f[c], x);
      assert defBlock[x] == b;
    }
  }

  function LastOf(lastUse: map<nat, nat>, id: nat): nat {
    if id in lastUse then lastUse[id] else 0
  }

  /** Every entry is a recorded read. */
  ghost predicate Tight(blk: Block, lastUse: map<nat, nat>) {
    forall id :: id in lastUse ==> lastUse[id] <= |blk.values| && ReadAt(blk, id, lastUse[id])
  }

  /** The entries bound every recorded read, at positions below `n`, of a value of the block that
      is not read elsewhere. */
  ghost predicate Covers(blk: Block, cross: set<nat>, lastUse: map<nat, nat>, n: nat) {
    forall id, at ::
      0 <= at < n && DefinedIn(blk, id) && id !in cross && ReadAt(blk, id, at) ==> at <= LastOf(lastUse, id)
  }

  /** Raises the last use of the block's own values among `ids` to `at`. */
  function Record(blk: Block, cross: set<nat>, lastUse: map<nat, nat>, ids: set<nat>, at: nat): (r: map<nat, nat>)
    ensures forall x :: LastOf(r, x) >= LastOf(lastUse, x)
    ensures forall x :: x in ids && DefinedIn(blk, x) && x !in cross ==> LastOf(r, x) >= at
    ensures forall x :: x in r ==> (x in lastUse && r[x] == lastUse[x]) || (x in ids && r[x] == at)
  {
    lastUse + map x | x in ids && DefinedIn(blk, x) && x !in cross && at > LastOf(lastUse, x) :: at
  }

  function ArgSet(v: Value): set<nat> {
    set x | x in v.args
  }

  /** The last reads by values of the block. */
  method ValueUses(blk: Block, cross: set<nat>) returns (lastUse: map<nat, nat>)
    ensures Covers(blk, cross, lastUse, |blk.values|) && Tight(blk, lastUse)
  {
    lastUse := map[];
    for i := 0 to |blk.values|
      invariant Covers(blk, cross, lastUse, i) && Tight(blk, lastUse)
    {
      if !blk.values[i].isPhi {
        forall x | x in ArgSet(blk.values[i])
          ensures ReadAt(blk, x, i)
        {
        }
        lastUse := Record(blk, cross, lastUse, ArgSet(blk.values[i]), i);
      }
    }
  }

  /** Arguments of the block's own phis count as read at its end, by the copies of a self loop. */
  method PhiUses(blk: Block, cross: set<nat>, start: map<nat, nat>) returns (lastUse: map<nat, nat>)
    requires Tight(blk, start)
    ensures Tight(blk, lastUse) && forall x :: LastOf(lastUse, x) >= LastOf(start, x)
    ensures forall x :: PhiReads(blk, x) && DefinedIn(blk, x) && x !in cross ==> LastOf(lastUse, x) >= |blk.values|
  {
    lastUse := start;
    for i := 0 to |blk.values|
      invariant Tight(blk, lastUse) && forall x :: LastOf(lastUse, x) >= LastOf(start, x)
      invariant forall j, x ::
                  0 <= j < i && blk.values[j].isPhi && x in blk.values[j].args && DefinedIn(blk, x) && x !in cross ==>
                  LastOf(lastUse, x) >= |blk.values|
    {
      if blk.values[i].isPhi {
        forall x | x in ArgSet(blk.values[i])
          ensures ReadAt(blk, x, |blk.values|)
        {
          assert PhiReads(blk, x);
        }
        lastUse := Record(blk, cross, lastUse, ArgSet(blk.values[i]), |blk.values|);
      }
    }
  }

  /** The last recorded read of every value of the block. */
  method LastUses(blk: Block, cross: set<nat>) returns (lastUse: map<nat, nat>)
    ensures Covers(blk, cross, lastUse, |blk.values| + 1) && Tight(blk, lastUse)
  {
    var n := |blk.values|;
    lastUse := ValueUses(blk, cross);
    lastUse := PhiUses(blk, cross, lastUse);
    if blk.control.Some? {
      lastUse := Record(blk, cross, lastUse, {blk.control.value}, n);
    }
    lastUse := Record(blk, cross, lastUse, (set x | x in blk.results), n);
  }
}
