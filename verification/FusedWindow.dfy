/** Fused windows emitted as a whole at their last member. */
module FusedWindow {
  import opened Basics
  import opened Reorder

  datatype Op = Phi | Glue | Load | Simd | SimdMem | Effectful

  /** `stores` is set for SIMD operations that write memory. */
  datatype Value = Value(id: nat, op: Op, args: seq<nat>, stores: bool)

  datatype Block = Block(values: seq<Value>, control: Option<nat>)

  /** `stores` says whether the tree of the window has a store, `resolves` whether all its operands and roots
      have places the fused body can address. */
  datatype Window = Window(members: seq<nat>, roots: seq<nat>, stores: bool, resolves: bool)

  predicate DistinctMembers(w: Window) {
    forall j, k :: 0 <= j < k < |w.members| ==> w.members[j] != w.members[k]
  }

  // ----- SSA form -----

  predicate DistinctIds(f: seq<Block>) {
    forall b, i, c, j ::
      0 <= b < |f| && 0 <= i < |f[b].values| && 0 <= c < |f| && 0 <= j < |f[c].values|
        && f[b].values[i].id == f[c].values[j].id ==>
        b == c && i == j
  }

  /** Phis lead a block, and no other value reads one defined later. */
  predicate Ordered(vs: seq<Value>) {
    && (forall i, j :: 0 <= i < j < |vs| && vs[j].op == Phi ==> vs[i].op == Phi)
    && (forall i, j :: 0 <= i <= j < |vs| && vs[i].op != Phi ==> vs[j].id !in vs[i].args)
  }

  // ----- counting readers -----

  /** How often values reading `x` name it: those of the ids in `s`, or all the others. */
  ghost function SumIn(vs: seq<Value>, s: set<nat>, x: nat): nat {
    if vs == [] then 0
    else SumIn(vs[..|vs| - 1], s, x) + if vs[|vs| - 1].id in s then Times(vs[|vs| - 1].args, x) else 0
  }

  ghost function SumAll(vs: seq<Value>, x: nat): nat {
    if vs == [] then 0 else SumAll(vs[..|vs| - 1], x) + Times(vs[|vs| - 1].args, x)
  }

  ghost function BlockUses(b: Block, x: nat): nat {
    SumAll(b.values, x) + One(b.control == Some(x))
  }

  ghost function TotalUses(f: seq<Block>, x: nat): nat {
    if f == [] then 0 else TotalUses(f[..|f| - 1], x) + BlockUses(f[|f| - 1], x)
  }

  lemma {:induction false} SumInReader(vs: seq<Value>, s: set<nat>, x: nat, i: nat)
    requires i < |vs| && x in vs[i].args && vs[i].id !in s
    ensures SumAll(vs, x) > SumIn(vs, s, x)
  {
    var n := |vs| - 1;
    if i < n {
      SumInReader(vs[..n], s, x, i);
    } else {
      SumInLess(vs[..n], s, x);
      assert x in multiset(vs[i].args);
    }
  }

  lemma {:induction false} SumInLess(vs: seq<Value>, s: set<nat>, x: nat)
    ensures SumAll(vs, x) >= SumIn(vs, s, x)
  {
    if vs != [] {
      SumInLess(vs[..|vs| - 1], s, x);
    }
  }

  lemma {:induction false} SumAllReader(vs: seq<Value>, x: nat, i: nat)
    requires i < |vs| && x in vs[i].args
    ensures SumAll(vs, x) > 0
  {
    SumInReader(vs, {}, x, i);
  }

  lemma {:induction false} TotalAtLeast(f: seq<Block>, x: nat, b: nat)
    requires b < |f|
    ensures TotalUses(f, x) >= BlockUses(f[b], x)
  {
    if b < |f| - 1 {
      TotalAtLeast(f[..|f| - 1], x, b);
    }
  }

  lemma {:induction false} TotalAtLeastTwo(f: seq<Block>, x: nat, b: nat, c: nat)
    requires b < c < |f|
    ensures TotalUses(f, x) >= BlockUses(f[b], x) + BlockUses(f[c], x)
  {
    var n := |f| - 1;
    if c < n {
      TotalAtLeastTwo(f[..n], x, b, c);
    } else {
      TotalAtLeast(f[..n], x, b);
    }
  }

  /** `x` is read by no value outside `s`, and by no control. */
  predicate ReadOnlyIn(f: seq<Block>, s: set<nat>, x: nat) {
    && (forall b, i :: 0 <= b < |f| && 0 <= i < |f[b].values| && f[b].values[i].id !in s ==> x !in f[b].values[i].args)
    && (forall b :: 0 <= b < |f| ==> f[b].control != Some(x))
  }

  /** If all uses are accounted for by the values `s` of block `b`, there is no other reader. */
  lemma NoOtherReader(f: seq<Block>, b: nat, s: set<nat>, x: nat)
    requires b < |f| && TotalUses(f, x) == SumIn(f[b].values, s, x)
    ensures ReadOnlyIn(f, s, x)
  {
    SumInLess(f[b].values, s, x);
    TotalAtLeast(f, x, b);
    forall c | 0 <= c < |f|
      ensures f[c].control != Some(x)
      ensures forall i :: 0 <= i < |f[c].values| && f[c].values[i].id !in s ==> x !in f[c].values[i].args
    {
      if c < b {
        TotalAtLeastTwo(f, x, c, b);
      } else if b < c {
        TotalAtLeastTwo(f, x, b, c);
      }
      forall i | 0 <= i < |f[c].values| && f[c].values[i].id !in s
        ensures x !in f[c].values[i].args
      {
        if x in f[c].values[i].args {
          SumAllReader(f[c].values, x, i);
          SumInReader(f[c].values, s, x, i);
        }
      }
    }
  }

  /** The converse: with no reader outside, the counts agree. */
  lemma {:induction false} OnlyReaders(vs: seq<Value>, s: set<nat>, x: nat)
    requires forall i :: 0 <= i < |vs| && vs[i].id !in s ==> x !in vs[i].args
    ensures SumAll(vs, x) == SumIn(vs, s, x)
  {
    if vs != [] {
      var n := |vs| - 1;
      assert vs[n].id !in s ==> x !in multiset(vs[n].args);
      OnlyReaders(vs[..n], s, x);
    }
  }

  lemma {:induction false} SumInNone(vs: seq<Value>, s: set<nat>, x: nat)
    requires forall i :: 0 <= i < |vs| ==> vs[i].id !in s
    ensures SumIn(vs, s, x) == 0
  {
    if vs != [] {
      SumInNone(vs[..|vs| - 1], s, x);
    }
  }

  lemma {:induction false} OnlyReadersTotal(f: seq<Block>, b: nat, s: set<nat>, x: nat)
    requires ReadOnlyIn(f, s, x) && b < |f|
    requires forall c, i :: 0 <= c < |f| && c != b && 0 <= i < |f[c].values| ==> f[c].values[i].id !in s
    ensures TotalUses(f, x) == SumIn(f[b].values, s, x)
  {
    var n := |f| - 1;
    OnlyReaders(f[n].values, s, x);
    if b == n {
      ForeignTotal(f[..n], s, x);
    } else {
      OnlyReadersTotal(f[..n], b, s, x);
      SumInNone(f[n].values, s, x);
    }
  }

  lemma {:induction false} ForeignTotal(f: seq<Block>, s: set<nat>, x: nat)
    requires ReadOnlyIn(f, s, x) && forall c, i :: 0 <= c < |f| && 0 <= i < |f[c].values| ==> f[c].values[i].id !in s
    ensures TotalUses(f, x) == 0
  {
    if f != [] {
      var n := |f| - 1;
      OnlyReaders(f[n].values, s, x);
      SumInNone(f[n].values, s, x);
      ForeignTotal(f[..n], s, x);
    }
  }

  /** Counting the members one by one. */
  lemma {:induction false} SumInAdd(vs: seq<Value>, s: set<nat>, x: nat, i: nat)
    requires i < |vs| && vs[i].id !in s && forall j :: 0 <= j < |vs| && j != i ==> vs[j].id != vs[i].id
    ensures SumIn(vs, s + {vs[i].id}, x) == SumIn(vs, s, x) + Times(vs[i].args, x)
  {
    var n := |vs| - 1;
    if i < n {
      SumInAdd(vs[..n], s, x, i);
    } else {
      SumInSame(vs[..n], s, vs[i].id, x);
    }
  }

  lemma {:induction false} SumInSame(vs: seq<Value>, s: set<nat>, y: nat, x: nat)
    requires forall j :: 0 <= j < |vs| ==> vs[j].id != y
    ensures SumIn(vs, s + {y}, x) == SumIn(vs, s, x)
  {
    if vs != [] {
      SumInSame(vs[..|vs| - 1], s, y, x);
    }
  }

  // ----- accepted windows -----

  function MemberSet(w: Window): set<nat> {
    set m <- w.members
  }

  /** May value `v`, found between the members, run before all of them? */
  predicate MayPrecede(w: Window, v: Value) {
    match v.op
    case Simd => false
    case SimdMem => false
    case Effectful => false
    case Load => !w.stores
    case _ => forall a :: a in v.args ==> a !in w.roots
  }

  /** The members are the values of block `b` between `first` and `last` that belong to the window;
      the rest may go first, members other than roots are read by members only, and operands can be addressed. */
  ghost predicate Accepted(f: seq<Block>, claimed: set<nat>, w: Window, b: nat, first: nat, last: nat) {
    && Spans(f, claimed, w, b, first, last) && w.resolves
    && (forall i :: first <= i <= last && f[b].values[i].id !in w.members ==> MayPrecede(w, f[b].values[i]))
    && (forall m :: m in w.members && m !in w.roots ==> ReadOnlyIn(f, MemberSet(w), m))
  }

  // ----- looking values up -----

  /** Where the values of the first blocks are defined. */
  ghost predicate Located(f: seq<Block>, blockOf: map<nat, nat>, posOf: map<nat, nat>) {
    && blockOf.Keys == posOf.Keys
    && (forall x :: x in blockOf ==>
          blockOf[x] < |f| && posOf[x] < |f[blockOf[x]].values| && f[blockOf[x]].values[posOf[x]].id == x)
  }

  function Count(m: map<nat, nat>, x: nat): nat {
    if x in m then m[x] else 0
  }

  method CountArgs(args: seq<nat>, counts: map<nat, nat>) returns (counts': map<nat, nat>)
    ensures forall x :: Count(counts', x) == Count(counts, x) + Times(args, x)
  {
    counts' := counts;
    for k := 0 to |args|
      invariant forall x :: Count(counts', x) == Count(counts, x) + Times(args[..k], x)
    {
      assert args[..k + 1] == args[..k] + [args[k]];
      counts' := counts'[args[k] := Count(counts', args[k]) + 1];
    }
    assert args[..|args|] == args;
  }

  /** The consumers of every value, over the whole function. */
  method CountConsumers(f: seq<Block>) returns (consumers: map<nat, nat>)
    ensures forall x :: Count(consumers, x) == TotalUses(f, x)
  {
    consumers := map[];
    for b := 0 to |f|
      invariant forall x :: Count(consumers, x) == TotalUses(f[..b], x)
    {
      var vs := f[b].values;
      for i := 0 to |vs|
        invariant forall x :: Count(consumers, x) == TotalUses(f[..b], x) + SumAll(vs[..i], x)
      {
        consumers := CountArgs(vs[i].args, consumers);
        assert vs[..i + 1][..i] == vs[..i];
      }
      assert vs[..|vs|] == vs;
      if f[b].control.Some? {
        consumers := consumers[f[b].control.value := Count(consumers, f[b].control.value) + 1];
      }
      assert f[..b + 1][..b] == f[..b];
    }
    assert f[..|f|] == f;
  }

  /** Where every value is defined. */
  method Locate(f: seq<Block>) returns (blockOf: map<nat, nat>, posOf: map<nat, nat>)
    ensures Located(f, blockOf, posOf)
    ensures forall b, i :: 0 <= b < |f| && 0 <= i < |f[b].values| ==> f[b].values[i].id in blockOf
  {
    blockOf, posOf := map[], map[];
    for b := 0 to |f|
      invariant Located(f, blockOf, posOf)
      invariant forall c, i :: 0 <= c < b && 0 <= i < |f[c].values| ==> f[c].values[i].id in blockOf
    {
      for i := 0 to |f[b].values|
        invariant Located(f, blockOf, posOf)
        invariant forall c, j :: 0 <= c < b && 0 <= j < |f[c].values| ==> f[c].values[j].id in blockOf
        invariant forall j :: 0 <= j < i ==> f[b].values[j].id in blockOf
      {
        var x := f[b].values[i].id;
        blockOf, posOf := blockOf[x := b], posOf[x := i];
      }
    }
  }

  /** The tables built from the function. */
  ghost predicate Indexed(f: seq<Block>, blockOf: map<nat, nat>, posOf: map<nat, nat>, consumers: map<nat, nat>) {
    && DistinctIds(f) && Located(f, blockOf, posOf)
    && (forall c, i :: 0 <= c < |f| && 0 <= i < |f[c].values| ==> f[c].values[i].id in blockOf)
    && (forall x :: Count(consumers, x) == TotalUses(f, x))
  }

  // ----- the checks -----

  /** The members are values of block `b` not claimed before, and span `first` to `last`. */
  ghost predicate Spans(f: seq<Block>, claimed: set<nat>, w: Window, b: nat, first: nat, last: nat) {
    && b < |f| && first <= last < |f[b].values| && f[b].values[first].id in w.members
    && f[b].values[last].id in w.members
    && (forall m :: m in w.members ==> m !in claimed && DefinedWithin(f, b, first, last, m))
  }

  ghost predicate DefinedWithin(f: seq<Block>, b: nat, first: nat, last: nat, m: nat) {
    exists i :: 0 <= first <= i <= last && b < |f| && i < |f[b].values| && f[b].values[i].id == m
  }

  method Span(f: seq<Block>, claimed: set<nat>, w: Window, blockOf: map<nat, nat>, posOf: map<nat, nat>)
    returns (ok: bool, b: nat, first: nat, last: nat)
    requires DistinctIds(f) && Located(f, blockOf, posOf) && w.members != []
    requires forall c, i :: 0 <= c < |f| && 0 <= i < |f[c].values| ==> f[c].values[i].id in blockOf
    ensures ok ==> Spans(f, claimed, w, b, first, last)
    ensures forall c, lo, hi :: Spans(f, claimed, w, c, lo, hi) ==> ok && c == b && lo == first && hi == last
  {
    ok, b, first, last := false, 0, 0, 0;
    var m0 := w.members[0];
    if m0 !in blockOf {
      NotSpanned(f, claimed, w, m0);
      return;
    }
    b, first, last := blockOf[m0], posOf[m0], posOf[m0];
    for k := 0 to |w.members|
      invariant b == blockOf[m0] && first <= last < |f[b].values|
      invariant f[b].values[first].id in w.members && f[b].values[last].id in w.members
      invariant forall j ::
                  0 <= j < k ==> w.members[j] !in claimed && w.members[j] in blockOf && blockOf[w.members[j]] == b
                                           && first <= posOf[w.members[j]] <= last
    {
      var m := w.members[k];
      if m !in blockOf || blockOf[m] != b || m in claimed {
        SpansIn(f, claimed, w, blockOf, posOf);
        return;
      }
      first := if posOf[m] < first then posOf[m] else first;
      last := if posOf[m] > last then posOf[m] else last;
    }
    ok := true;
    forall m | m in w.members
      ensures m !in claimed && DefinedWithin(f, b, first, last, m)
    {
      var j :| 0 <= j < |w.members| && w.members[j] == m;
      assert f[b].values[posOf[m]].id == m;
    }
    SpansIn(f, claimed, w, blockOf, posOf);
    forall c, lo, hi | Spans(f, claimed, w, c, lo, hi)
      ensures c == b && lo == first && hi == last
    {
      SpanUnique(f, claimed, w, b, first, last, c, lo, hi);
    }
  }

  lemma NotSpanned(f: seq<Block>, claimed: set<nat>, w: Window, m: nat)
    requires m in w.members && forall c, i :: 0 <= c < |f| && 0 <= i < |f[c].values| ==> f[c].values[i].id != m
    ensures forall c, lo, hi :: !Spans(f, claimed, w, c, lo, hi)
  {
  }

  /** Whatever block the members span, all of them are located there. */
  lemma SpansIn(f: seq<Block>, claimed: set<nat>, w: Window, blockOf: map<nat, nat>, posOf: map<nat, nat>)
    requires DistinctIds(f) && Located(f, blockOf, posOf)
    requires forall c, i :: 0 <= c < |f| && 0 <= i < |f[c].values| ==> f[c].values[i].id in blockOf
    ensures forall c, lo, hi, m :: Spans(f, claimed, w, c, lo, hi) && m in w.members ==>
              m !in claimed && m in blockOf && blockOf[m] == c && lo <= posOf[m] <= hi
  {
    forall c: nat, lo: nat, hi: nat, m | Spans(f, claimed, w, c, lo, hi) && m in w.members
      ensures m !in claimed && m in blockOf && blockOf[m] == c && lo <= posOf[m] <= hi
    {
      assert DefinedWithin(f, c, lo, hi, m);
      var i: nat :| lo <= i <= hi && i < |f[c].values| && f[c].values[i].id == m;
      assert f[blockOf[m]].values[posOf[m]].id == m;
    }
  }

  lemma SpanUnique(f: seq<Block>, claimed: set<nat>, w: Window, b: nat, first: nat, last: nat, c: nat, lo: nat, hi: nat)
    requires DistinctIds(f) && Spans(f, claimed, w, b, first, last) && Spans(f, claimed, w, c, lo, hi)
    ensures c == b && lo == first && hi == last
  {
    assert DefinedWithin(f, b, first, last, f[c].values[lo].id) && DefinedWithin(f, b, first, last, f[c].values[hi].id);
    assert DefinedWithin(f, c, lo, hi, f[b].values[first].id) && DefinedWithin(f, c, lo, hi, f[b].values[last].id);
  }

  /** Everything between the members may go first. */
  method InterleavedMayPrecede(vs: seq<Value>, w: Window, first: nat, last: nat) returns (ok: bool)
    requires first <= last < |vs|
    ensures ok <==> forall i :: first <= i <= last && vs[i].id !in w.members ==> MayPrecede(w, vs[i])
  {
    for i := first to last + 1
      invariant forall j :: first <= j < i && vs[j].id !in w.members ==> MayPrecede(w, vs[j])
    {
      if vs[i].id !in w.members && !MayPrecede(w, vs[i]) {
        return false;
      }
    }
    ok := true;
  }

  /** How often members name other members. */
  method CountInWindow(f: seq<Block>, w: Window, b: nat, posOf: map<nat, nat>, ghost claimed: set<nat>,
                       ghost first: nat, ghost last: nat)
    returns (inWindow: map<nat, nat>)
    requires DistinctIds(f) && Spans(f, claimed, w, b, first, last)
    requires DistinctMembers(w)
    requires forall m :: m in w.members ==> m in posOf && posOf[m] < |f[b].values| && f[b].values[posOf[m]].id == m
    ensures forall x :: x in MemberSet(w) ==> Count(inWindow, x) == SumIn(f[b].values, MemberSet(w), x)
  {
    inWindow := map[];
    ghost var done: set<nat> := {};
    forall x
      ensures SumIn(f[b].values, {}, x) == 0
    {
      SumInNone(f[b].values, {}, x);
    }
    for k := 0 to |w.members|
      invariant done == set j | 0 <= j < k :: w.members[j]
      invariant forall x :: x in MemberSet(w) ==> Count(inWindow, x) == SumIn(f[b].values, done, x)
    {
      var m := w.members[k];
      var v := f[b].values[posOf[m]];
      var counted := CountArgs(v.args, inWindow);
      forall x
        ensures SumIn(f[b].values, done + {m}, x) == SumIn(f[b].values, done, x) + Times(v.args, x)
      {
        SumInAdd(f[b].values, done, x, posOf[m]);
      }
      inWindow := counted;
      done := done + {m};
    }
    assert done == MemberSet(w);
  }

  /** Members other than roots have no reader outside the window. */
  method InnerMembersHidden(f: seq<Block>, w: Window, b: nat, inWindow: map<nat, nat>, consumers: map<nat, nat>)
    returns (ok: bool)
    requires b < |f| && forall x :: Count(consumers, x) == TotalUses(f, x)
    requires forall x :: x in MemberSet(w) ==> Count(inWindow, x) == SumIn(f[b].values, MemberSet(w), x)
    requires forall c, i :: 0 <= c < |f| && c != b && 0 <= i < |f[c].values| ==> f[c].values[i].id !in MemberSet(w)
    ensures ok <==> forall m :: m in w.members && m !in w.roots ==> ReadOnlyIn(f, MemberSet(w), m)
  {
    for k := 0 to |w.members|
      invariant forall j :: 0 <= j < k && w.members[j] !in w.roots ==> ReadOnlyIn(f, MemberSet(w), w.members[j])
    {
      var m := w.members[k];
      if m !in w.roots {
        assert m in MemberSet(w);
        if Count(consumers, m) != Count(inWindow, m) {
          if ReadOnlyIn(f, MemberSet(w), m) {
            OnlyReadersTotal(f, b, MemberSet(w), m);
          }
          return false;
        }
        NoOtherReader(f, b, MemberSet(w), m);
      }
    }
    ok := true;
  }

  /** Is the window accepted?  `claimed` are the members of windows accepted before. */
  method ResolveFusedWindow(f: seq<Block>, claimed: set<nat>, w: Window, blockOf: map<nat, nat>, posOf: map<nat, nat>,
                            consumers: map<nat, nat>) returns (ok: bool, b: nat, first: nat, last: nat)
    requires Indexed(f, blockOf, posOf, consumers) && DistinctMembers(w)
    ensures ok ==> Accepted(f, claimed, w, b, first, last)
    ensures forall c, lo, hi :: Accepted(f, claimed, w, c, lo, hi) ==> ok
  {
    ok, b, first, last := false, 0, 0, 0;
    if w.members == [] {
      return;
    }
    var spans;
    spans, b, first, last := Span(f, claimed, w, blockOf, posOf);
    if !spans {
      return;
    }
    SpansIn(f, claimed, w, blockOf, posOf);
    var fine := InterleavedMayPrecede(f[b].values, w, first, last);
    if !fine {
      return;
    }
    var inWindow := CountInWindow(f, w, b, posOf, claimed, first, last);
    MembersOnlyIn(f, w, b, posOf);
    ok := InnerMembersHidden(f, w, b, inWindow, consumers);
    ok := ok && w.resolves;
  }

  lemma MembersOnlyIn(f: seq<Block>, w: Window, b: nat, posOf: map<nat, nat>)
    requires DistinctIds(f) && b < |f|
    requires forall m :: m in w.members ==> m in posOf && posOf[m] < |f[b].values| && f[b].values[posOf[m]].id == m
    ensures forall c, i :: 0 <= c < |f| && c != b && 0 <= i < |f[c].values| ==> f[c].values[i].id !in MemberSet(w)
  {
    forall c, i | 0 <= c < |f| && c != b && 0 <= i < |f[c].values|
      ensures f[c].values[i].id !in MemberSet(w)
    {
      assert forall m :: m in w.members ==> f[b].values[posOf[m]].id != f[c].values[i].id;
    }
  }

  // ----- accepted windows keep their meaning -----

  /** A value as a statement that defines its own identifier. */
  function Statement(v: Value): Stmt<nat> {
    Stmt(v.id, (set a <- v.args), Some(v.id), v.op == Load || v.op == SimdMem || v.op == Effectful,
         v.stores || v.op == Effectful)
  }

  /** The values of a stretch; those outside the window go first. */
  function Stretch(vs: seq<Value>, w: Window): (r: seq<Item<nat>>)
    ensures |r| == |vs| && forall i :: 0 <= i < |vs| ==> r[i] == Item(vs[i].id !in w.members, Statement(vs[i]))
  {
    seq(|vs|, i requires 0 <= i < |vs| => Item(vs[i].id !in w.members, Statement(vs[i])))
  }

  /** What the code generator guarantees: a block reads only what comes before, no scalar load has a
      vector address, and only stores in the tree make members write memory. */
  ghost predicate Typed(f: seq<Block>, w: Window, b: nat)
    requires b < |f|
  {
    && Ordered(f[b].values)
    && (forall i :: 0 <= i < |f[b].values| && f[b].values[i].id in w.members ==>
          (f[b].values[i].op == Simd || f[b].values[i].op == SimdMem) && (f[b].values[i].stores ==> w.stores))
    && (forall i :: 0 <= i < |f[b].values| && f[b].values[i].id !in w.members && f[b].values[i].stores ==>
          f[b].values[i].op == SimdMem || f[b].values[i].op == Effectful)
    && (forall i, a ::
          0 <= i < |f[b].values| && f[b].values[i].op == Load && a in f[b].values[i].args ==> a !in w.roots)
  }

  lemma MemberWaits(f: seq<Block>, claimed: set<nat>, w: Window, b: nat, first: nat, last: nat, i: nat, j: nat)
    requires DistinctIds(f) && Accepted(f, claimed, w, b, first, last) && Typed(f, w, b)
    requires first <= i < j <= last && f[b].values[i].id in w.members && f[b].values[j].id !in w.members
    ensures Independent(Statement(f[b].values[i]), Statement(f[b].values[j]))
  {
    var m, g := f[b].values[i], f[b].values[j];
    assert MayPrecede(w, g);
    assert g.id !in m.args;
    assert m.id !in g.args by {
      if m.id !in w.roots {
        assert ReadOnlyIn(f, MemberSet(w), m.id);
      }
    }
  }

  lemma StretchOvertakes(f: seq<Block>, claimed: set<nat>, w: Window, b: nat, first: nat, last: nat)
    requires DistinctIds(f) && Accepted(f, claimed, w, b, first, last) && Typed(f, w, b)
    ensures MayOvertake(Stretch(f[b].values[first..last + 1], w))
  {
    var vs := f[b].values[first..last + 1];
    var items := Stretch(vs, w);
    forall i, j | 0 <= i < j < |items| && !items[i].early && items[j].early
      ensures Independent(items[i].s, items[j].s)
    {
      MemberWaits(f, claimed, w, b, first, last, first + i, first + j);
    }
  }

  /** The members that are not returned. */
  function Hidden(w: Window): set<nat> {
    set m <- w.members | m !in w.roots
  }

  /** The state after the fused body: members that are not roots are never set. */
  ghost function Fused<M>(sem: Sem<nat, M>, vs: seq<Value>, w: Window, st: State<nat, M>): (r: State<nat, M>)
    requires Total(st)
    ensures Total(r)
  {
    var items := Stretch(vs, w);
    var before := ExecAll(sem, Pick(items, true), st);
    var after := ExecAll(sem, Pick(items, false), before);
    State(imap x: nat :: if x in Hidden(w) then before.env[x] else after.env[x], after.mem)
  }

  /** Deferring the members of an accepted window to its last member gives every value but the hidden
      ones, and memory, what they have in block order ... */
  lemma DeferralKeepsMeaning<M>(sem: Sem<nat, M>, f: seq<Block>, claimed: set<nat>, w: Window, b: nat, first: nat,
                                last: nat, st: State<nat, M>)
    requires DistinctIds(f) && Accepted(f, claimed, w, b, first, last) && Typed(f, w, b) && Total(st)
    ensures var vs := f[b].values[first..last + 1];
            AgreeOff(ExecAll(sem, All(Stretch(vs, w)), st), Fused(sem, vs, w, st), Hidden(w))
  {
    var vs := f[b].values[first..last + 1];
    StretchOvertakes(f, claimed, w, b, first, last);
    EarlyFirst(sem, Stretch(vs, w), st);
    ExecConcat(sem, Pick(Stretch(vs, w), true), Pick(Stretch(vs, w), false), st);
  }

  /** ... and nothing that runs later, in any block, sees the difference. */
  lemma DeferralUnseen<M>(sem: Sem<nat, M>, f: seq<Block>, claimed: set<nat>, w: Window, b: nat, first: nat, last: nat,
                          st: State<nat, M>, later: seq<Value>)
    requires DistinctIds(f) && Accepted(f, claimed, w, b, first, last) && Typed(f, w, b) && Total(st)
    requires forall k :: 0 <= k < |later| ==> later[k].id !in w.members && InFunction(f, later[k])
    ensures var vs, rest := f[b].values[first..last + 1], All(Stretch(later, w));
            AgreeOff(ExecAll(sem, rest, ExecAll(sem, All(Stretch(vs, w)), st)),
                     ExecAll(sem, rest, Fused(sem, vs, w, st)), Hidden(w))
  {
    var vs := f[b].values[first..last + 1];
    DeferralKeepsMeaning(sem, f, claimed, w, b, first, last, st);
    AllOf(later, w);
    forall k | 0 <= k < |later|
      ensures Statement(later[k]).uses !! Hidden(w)
    {
      assert InFunction(f, later[k]);
      forall m | m in Hidden(w)
        ensures m !in later[k].args
      {
        assert ReadOnlyIn(f, MemberSet(w), m);
      }
    }
    AgreementStays(sem, All(Stretch(later, w)), ExecAll(sem, All(Stretch(vs, w)), st),
                   Fused(sem, vs, w, st), Hidden(w));
  }

  ghost predicate InFunction(f: seq<Block>, v: Value) {
    exists b, i :: 0 <= b < |f| && 0 <= i < |f[b].values| && f[b].values[i] == v
  }

  lemma {:induction false} AllOf(vs: seq<Value>, w: Window)
    ensures |All(Stretch(vs, w))| == |vs| && forall k :: 0 <= k < |vs| ==> All(Stretch(vs, w))[k] == Statement(vs[k])
  {
    if vs != [] {
      AllOf(vs[1..], w);
      assert Stretch(vs, w)[1..] == Stretch(vs[1..], w);
    }
  }

  // ----- all windows of a function -----

  /** A window that was accepted, and where. */
  datatype Planned = Planned(w: Window, b: nat, first: nat, last: nat)

  /** Every planned window is accepted, emitted at its last member, and shares no member with another. */
  ghost predicate ValidPlan(f: seq<Block>, fusedAt: map<nat, Planned>, fusedMember: set<nat>) {
    && (forall x :: x in fusedAt ==> ValidEntry(f, x, fusedAt[x], fusedMember))
    && (forall x, y :: x in fusedAt && y in fusedAt && x != y ==> MemberSet(fusedAt[x].w) !! MemberSet(fusedAt[y].w))
    && (forall m :: m in fusedMember ==> PlannedMember(fusedAt, m))
  }

  ghost predicate PlannedMember(fusedAt: map<nat, Planned>, m: nat) {
    exists x :: x in fusedAt && m in fusedAt[x].w.members
  }

  ghost predicate ValidEntry(f: seq<Block>, x: nat, p: Planned, fusedMember: set<nat>) {
    Accepted(f, {}, p.w, p.b, p.first, p.last) && x == f[p.b].values[p.last].id && MemberSet(p.w) <= fusedMember
  }

  lemma PlanGrows(f: seq<Block>, fusedAt: map<nat, Planned>, fusedMember: set<nat>, p: Planned)
    requires ValidPlan(f, fusedAt, fusedMember) && Accepted(f, fusedMember, p.w, p.b, p.first, p.last)
    ensures f[p.b].values[p.last].id !in fusedAt
    ensures ValidPlan(f, fusedAt[f[p.b].values[p.last].id := p], fusedMember + MemberSet(p.w))
  {
    var at := f[p.b].values[p.last].id;
    assert at in MemberSet(p.w) && MemberSet(p.w) !! fusedMember;
    assert Spans(f, {}, p.w, p.b, p.first, p.last);
    forall x | x in fusedAt
      ensures x in fusedMember
    {
      assert ValidEntry(f, x, fusedAt[x], fusedMember);
      assert x in MemberSet(fusedAt[x].w);
    }
    var grown := fusedAt[at := p];
    forall x | x in grown
      ensures ValidEntry(f, x, grown[x], fusedMember + MemberSet(p.w))
    {
      if x != at {
        assert ValidEntry(f, x, fusedAt[x], fusedMember);
      }
    }
    forall m | m in fusedMember + MemberSet(p.w)
      ensures PlannedMember(grown, m)
    {
      if m in MemberSet(p.w) {
        assert grown[at] == p;
      } else {
        assert PlannedMember(fusedAt, m);
        var x :| x in fusedAt && m in fusedAt[x].w.members;
        assert grown[x] == fusedAt[x];
      }
    }
    forall x, y | x in grown && y in grown && x != y
      ensures MemberSet(grown[x].w) !! MemberSet(grown[y].w)
    {
      if x != at {
        assert ValidEntry(f, x, fusedAt[x], fusedMember);
      }
      if y != at {
        assert ValidEntry(f, y, fusedAt[y], fusedMember);
      }
    }
  }

  /** Can the window be accepted when `claimed` is taken?  If so, there is one place for it. */
  ghost predicate Acceptable(f: seq<Block>, claimed: set<nat>, w: Window) {
    exists b, first, last :: Accepted(f, claimed, w, b, first, last)
  }

  ghost function PlaceOf(f: seq<Block>, claimed: set<nat>, w: Window): (p: Planned)
    requires Acceptable(f, claimed, w)
    ensures p.w == w && Accepted(f, claimed, w, p.b, p.first, p.last)
  {
    var b, first, last :| Accepted(f, claimed, w, b, first, last);
    Planned(w, b, first, last)
  }

  lemma OnePlace(f: seq<Block>, claimed: set<nat>, p: Planned)
    requires DistinctIds(f) && Accepted(f, claimed, p.w, p.b, p.first, p.last)
    ensures Acceptable(f, claimed, p.w) && PlaceOf(f, claimed, p.w) == p
  {
    var q := PlaceOf(f, claimed, p.w);
    SpanUnique(f, claimed, p.w, p.b, p.first, p.last, q.b, q.first, q.last);
  }

  /** The table and the members after all windows, in order: each is planned exactly when it is acceptable then. */
  ghost function PlanOf(f: seq<Block>, windows: seq<Window>): (map<nat, Planned>, set<nat>) {
    if windows == [] then (map[], {})
    else
      var n := |windows| - 1;
      var before := PlanOf(f, windows[..n]);
      if Acceptable(f, before.1, windows[n]) then
        var p := PlaceOf(f, before.1, windows[n]);
        (before.0[f[p.b].values[p.last].id := p], before.1 + MemberSet(p.w))
      else before
  }

  class Planner {
    const f: seq<Block>
    var fusedAt: map<nat, Planned>
    var fusedMember: set<nat>

    constructor (f: seq<Block>)
      ensures this.f == f && fusedAt == map[] && fusedMember == {}
    {
      this.f, fusedAt, fusedMember := f, map[], {};
    }

    /** Plans window `w`, or leaves it alone. */
    method Plan(w: Window, blockOf: map<nat, nat>, posOf: map<nat, nat>, consumers: map<nat, nat>)
      returns (ok: bool, p: Planned)
      requires Indexed(f, blockOf, posOf, consumers) && DistinctMembers(w) && ValidPlan(f, fusedAt, fusedMember)
      modifies this
      ensures ValidPlan(f, fusedAt, fusedMember) && p.w == w
      ensures ok <==> Acceptable(f, old(fusedMember), w)
      ensures ok ==> p == PlaceOf(f, old(fusedMember), w)
      ensures if ok then Accepted(f, old(fusedMember), w, p.b, p.first, p.last)
                         && fusedAt == old(fusedAt)[f[p.b].values[p.last].id := p]
                         && fusedMember == old(fusedMember) + MemberSet(w)
              else fusedAt == old(fusedAt) && fusedMember == old(fusedMember)
    {
      var b, first, last;
      ok, b, first, last := ResolveFusedWindow(f, fusedMember, w, blockOf, posOf, consumers);
      p := Planned(w, b, first, last);
      if ok {
        OnePlace(f, fusedMember, p);
        PlanGrows(f, fusedAt, fusedMember, p);
        fusedAt := fusedAt[f[b].values[last].id := p];
        fusedMember := fusedMember + MemberSet(w);
      }
    }

    /** Plans the windows in order; one that overlaps an earlier one is left alone. */
    method PlanFusedWindows(windows: seq<Window>)
      requires DistinctIds(f) && fusedAt == map[] && fusedMember == {}
      requires forall i :: 0 <= i < |windows| ==> DistinctMembers(windows[i])
      modifies this
      ensures (fusedAt, fusedMember) == PlanOf(f, windows) && ValidPlan(f, fusedAt, fusedMember)
      ensures forall x :: x in fusedAt ==> fusedAt[x].w in windows
    {
      var consumers := CountConsumers(f);
      var blockOf, posOf := Locate(f);
      assert Indexed(f, blockOf, posOf, consumers);
      for i := 0 to |windows|
        invariant (fusedAt, fusedMember) == PlanOf(f, windows[..i]) && ValidPlan(f, fusedAt, fusedMember)
        invariant forall x :: x in fusedAt ==> fusedAt[x].w in windows
      {
        assert windows[..i + 1][..i] == windows[..i];
        var ok, p := Plan(windows[i], blockOf, posOf, consumers);
      }
      assert windows[..|windows|] == windows;
    }
  }
}
