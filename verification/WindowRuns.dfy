/** Whole runs of a function whose planned windows are emitted fused. */
module WindowRuns {
  import opened Basics
  import opened Reorder
  import opened FusedWindow

  /** The windows that were planned, and their members. */
  datatype Fusion = Fusion(at: map<nat, Planned>, members: set<nat>)

  /** What the planner gives, on a function in SSA form, together with what the code generator guarantees. */
  ghost predicate Sound(f: seq<Block>, u: Fusion) {
    && DistinctIds(f) && ValidPlan(f, u.at, u.members)
    && (forall x :: x in u.at ==> u.at[x].b < |f| && Typed(f, u.at[x].w, u.at[x].b))
  }

  /** The same, window by window. */
  ghost predicate Fine(f: seq<Block>, u: Fusion) {
    && (forall x {:trigger FineEntry(f, u, x)} :: x in u.at ==> FineEntry(f, u, x))
    && (forall x, y {:trigger Disjoint(u, x, y)} :: x in u.at && y in u.at && x != y ==> Disjoint(u, x, y))
    && (forall m {:trigger PlannedMember(u.at, m)} :: m in u.members ==> PlannedMember(u.at, m))
  }

  ghost predicate FineEntry(f: seq<Block>, u: Fusion, x: nat)
    requires x in u.at
  {
    var p := u.at[x];
    DistinctIds(f) && ValidEntry(f, x, p, u.members) && Typed(f, p.w, p.b)
  }

  ghost predicate Disjoint(u: Fusion, x: nat, y: nat)
    requires x in u.at && y in u.at
  {
    MemberSet(u.at[x].w) !! MemberSet(u.at[y].w)
  }

  lemma SoundIsFine(f: seq<Block>, u: Fusion)
    requires Sound(f, u)
    ensures Fine(f, u)
  {
    forall x | x in u.at
      ensures FineEntry(f, u, x)
    {
      assert ValidEntry(f, x, u.at[x], u.members);
    }
  }

  /** The members whose values are never set: those of some planned window that are not its roots. */
  ghost predicate IsHidden(u: Fusion, x: nat) {
    exists k :: k in u.at && x in Hidden(u.at[k].w)
  }

  ghost function Unset(u: Fusion): (r: set<nat>)
    ensures forall x :: x in r <==> IsHidden(u, x)
  {
    set k, x | k in u.at && x in Hidden(u.at[k].w) :: x
  }

  // ----- a block as it stands, and as it is emitted -----

  /** The values of a block from position `i` on; phis are set on the edges. */
  ghost function RunFrom<M>(sem: Sem<nat, M>, vs: seq<Value>, i: nat, st: State<nat, M>): (r: State<nat, M>)
    requires Total(st)
    ensures Total(r)
    decreases |vs| - i
  {
    if i >= |vs| then st
    else RunFrom(sem, vs, i + 1, if vs[i].op == Phi then st else Exec(sem, Statement(vs[i]), st))
  }

  /** All members of a window at once; only roots are set. */
  ghost function Body<M>(sem: Sem<nat, M>, p: Planned, vs: seq<Value>, st: State<nat, M>): (r: State<nat, M>)
    requires Total(st)
    ensures Total(r)
  {
    if p.first <= p.last < |vs| then
      Published(sem, Pick(Stretch(vs[p.first..p.last + 1], p.w), false), p.w, st)
    else st
  }

  ghost function Published<M>(sem: Sem<nat, M>, ss: seq<Stmt<nat>>, w: Window, st: State<nat, M>): (r: State<nat, M>)
    requires Total(st)
    ensures Total(r)
  {
    var after := ExecAll(sem, ss, st);
    State(imap x: nat :: if x in Hidden(w) then st.env[x] else after.env[x], after.mem)
  }

  /** The block as emitted: the last member of a window stands for the window, the other members for nothing. */
  ghost function EmitFrom<M>(sem: Sem<nat, M>, u: Fusion, vs: seq<Value>, i: nat, st: State<nat, M>): (r: State<nat, M>)
    requires Total(st)
    ensures Total(r)
    decreases |vs| - i
  {
    if i >= |vs| then st
    else if vs[i].id in u.at then EmitFrom(sem, u, vs, i + 1, Body(sem, u.at[vs[i].id], vs, st))
    else if vs[i].id in u.members || vs[i].op == Phi then EmitFrom(sem, u, vs, i + 1, st)
    else EmitFrom(sem, u, vs, i + 1, Exec(sem, Statement(vs[i]), st))
  }

  // ----- where a window stands -----

  /** Position `i` of the stretch of a window: a member, emitted with the last one, or a member of no window. */
  ghost predicate Inside(u: Fusion, p: Planned, vs: seq<Value>, i: nat)
    requires i < |vs|
  {
    && vs[i].op != Phi
    && (vs[i].id in p.w.members ==> vs[i].id in u.members && (vs[i].id in u.at ==> i == p.last))
    && (vs[i].id !in p.w.members ==> vs[i].id !in u.members && vs[i].id !in u.at)
  }

  ghost predicate Stands(u: Fusion, p: Planned, vs: seq<Value>) {
    && p.first <= p.last < |vs| && vs[p.first].id in u.members
    && vs[p.last].id in p.w.members && vs[p.last].id in u.at && u.at[vs[p.last].id] == p
    && (forall i :: p.first <= i <= p.last ==> Inside(u, p, vs, i))
  }

  /** A planned member lies in the span of its window and nowhere else. */
  lemma MemberInSpan(f: seq<Block>, u: Fusion, x: nat, b: nat, i: nat)
    requires x in u.at && FineEntry(f, u, x)
    requires b < |f| && i < |f[b].values| && f[b].values[i].id in u.at[x].w.members
    ensures u.at[x].b == b && u.at[x].first <= i <= u.at[x].last && (f[b].values[i].id == x ==> i == u.at[x].last)
    ensures f[b].values[i].op == Simd || f[b].values[i].op == SimdMem
    ensures f[b].values[i].id in u.members
  {
    var p := u.at[x];
    assert f[b].values[i].id in MemberSet(p.w);
    assert DefinedWithin(f, p.b, p.first, p.last, f[b].values[i].id);
  }

  /** What stands between the members of a window may precede them, so it is no member of another. */
  lemma StrangerIsNoMember(f: seq<Block>, u: Fusion, x: nat, y: nat, i: nat)
    requires x in u.at && y in u.at && FineEntry(f, u, x) && FineEntry(f, u, y)
    requires u.at[x].first <= i <= u.at[x].last && f[u.at[x].b].values[i].id !in u.at[x].w.members
    ensures f[u.at[x].b].values[i].id !in u.at[y].w.members
  {
    var v := f[u.at[x].b].values[i];
    assert MayPrecede(u.at[x].w, v);
    if v.id in u.at[y].w.members {
      MemberInSpan(f, u, y, u.at[x].b, i);
    }
  }

  lemma KeyIsMember(f: seq<Block>, u: Fusion, x: nat)
    requires x in u.at && FineEntry(f, u, x)
    ensures x in u.at[x].w.members && x in u.members
  {
    assert x in MemberSet(u.at[x].w);
  }

  /** A value is a member of one window only. */
  lemma SameWindow(u: Fusion, x: nat, y: nat, m: nat)
    requires x in u.at && y in u.at && m in u.at[x].w.members && m in u.at[y].w.members
    requires x != y ==> Disjoint(u, x, y)
    ensures x == y
  {
    assert m in MemberSet(u.at[x].w) && m in MemberSet(u.at[y].w);
  }

  lemma NoPhiInside(f: seq<Block>, u: Fusion, x: nat, i: nat)
    requires x in u.at && FineEntry(f, u, x) && u.at[x].first <= i <= u.at[x].last
    ensures f[u.at[x].b].values[i].op != Phi
  {
    MemberInSpan(f, u, x, u.at[x].b, u.at[x].first);
  }

  lemma StrangerInside(f: seq<Block>, u: Fusion, x: nat, i: nat)
    requires Fine(f, u) && x in u.at && FineEntry(f, u, x)
    requires u.at[x].first <= i <= u.at[x].last && f[u.at[x].b].values[i].id !in u.at[x].w.members
    ensures f[u.at[x].b].values[i].id !in u.members && f[u.at[x].b].values[i].id !in u.at
  {
    var m := f[u.at[x].b].values[i].id;
    forall y | y in u.at
      ensures m !in u.at[y].w.members && m != y
    {
      assert FineEntry(f, u, y);
      StrangerIsNoMember(f, u, x, y, i);
      KeyIsMember(f, u, y);
    }
    assert m in u.members ==> PlannedMember(u.at, m);
  }

  lemma MemberInside(f: seq<Block>, u: Fusion, x: nat, i: nat)
    requires Fine(f, u) && x in u.at && FineEntry(f, u, x)
    requires u.at[x].first <= i <= u.at[x].last && f[u.at[x].b].values[i].id in u.at[x].w.members
    ensures Inside(u, u.at[x], f[u.at[x].b].values, i)
  {
    var m := f[u.at[x].b].values[i].id;
    MemberInSpan(f, u, x, u.at[x].b, i);
    if m in u.at {
      assert FineEntry(f, u, m);
      KeyIsMember(f, u, m);
      assert x != m ==> Disjoint(u, x, m);
      SameWindow(u, x, m, m);
    }
  }

  lemma WindowStands(f: seq<Block>, u: Fusion, x: nat)
    requires Fine(f, u) && x in u.at
    ensures u.at[x].b < |f| && Stands(u, u.at[x], f[u.at[x].b].values)
    ensures x == f[u.at[x].b].values[u.at[x].last].id
  {
    assert FineEntry(f, u, x);
    forall i | u.at[x].first <= i <= u.at[x].last
      ensures Inside(u, u.at[x], f[u.at[x].b].values, i)
    {
      if f[u.at[x].b].values[i].id in u.at[x].w.members {
        MemberInside(f, u, x, i);
      } else {
        StrangerInside(f, u, x, i);
        NoPhiInside(f, u, x, i);
      }
    }
    assert f[u.at[x].b].values[u.at[x].first].id in MemberSet(u.at[x].w);
  }

  /** Position `i` of block `b` is not inside a window that starts before it. */
  ghost predicate Between(u: Fusion, b: nat, i: nat) {
    forall x :: x in u.at && u.at[x].b == b ==> !(u.at[x].first < i <= u.at[x].last)
  }

  /** A window that begins at `i`: the position after it is between windows again. */
  lemma SpansApart(f: seq<Block>, u: Fusion, x: nat)
    requires Fine(f, u) && x in u.at
    ensures Between(u, u.at[x].b, u.at[x].last + 1)
  {
    WindowStands(f, u, x);
    forall y | y in u.at && u.at[y].b == u.at[x].b
      ensures !(u.at[y].first < u.at[x].last + 1 <= u.at[y].last)
    {
      WindowStands(f, u, y);
      assert u.at[y].first <= u.at[x].last <= u.at[y].last ==> Inside(u, u.at[y], f[u.at[x].b].values, u.at[x].last);
    }
  }

  /** After a value of no window no window has just been entered. */
  lemma OutsideNext(f: seq<Block>, u: Fusion, b: nat, i: nat)
    requires Fine(f, u) && b < |f| && i < |f[b].values| && Between(u, b, i) && f[b].values[i].id !in u.members
    ensures Between(u, b, i + 1)
  {
    forall x | x in u.at && u.at[x].b == b
      ensures !(u.at[x].first < i + 1 <= u.at[x].last)
    {
      WindowStands(f, u, x);
    }
  }

  // ----- a stretch as it is emitted -----

  lemma {:induction false} PickSnoc(items: seq<Item<nat>>, item: Item<nat>, early: bool)
    ensures Pick(items + [item], early) == Pick(items, early) + if item.early == early then [item.s] else []
  {
    if items == [] {
      assert [] + [item] == [item] && [item][1..] == [];
    } else {
      PickSnoc(items[1..], item, early);
      assert (items + [item])[1..] == items[1..] + [item];
    }
  }

  lemma StretchSnoc(vs: seq<Value>, v: Value, w: Window)
    ensures Stretch(vs + [v], w) == Stretch(vs, w) + [Item(v.id !in w.members, Statement(v))]
  {
  }

  lemma ExecSnoc<M>(sem: Sem<nat, M>, ss: seq<Stmt<nat>>, s: Stmt<nat>, st: State<nat, M>)
    requires Total(st)
    ensures ExecAll(sem, ss + [s], st) == Exec(sem, s, ExecAll(sem, ss, st))
  {
    ExecConcat(sem, ss, [s], st);
    ExecCons(sem, s, [], ExecAll(sem, ss, st));
    assert [s] + [] == [s];
  }

  /** What is no member, in order. */
  ghost function Early<M>(sem: Sem<nat, M>, vs: seq<Value>, w: Window, st: State<nat, M>): (r: State<nat, M>)
    requires Total(st)
    ensures Total(r)
  {
    ExecAll(sem, Pick(Stretch(vs, w), true), st)
  }

  lemma EarlySnoc<M>(sem: Sem<nat, M>, vs: seq<Value>, v: Value, w: Window, st: State<nat, M>)
    requires Total(st)
    ensures Early(sem, vs + [v], w, st)
            == if v.id in w.members then Early(sem, vs, w, st) else Exec(sem, Statement(v), Early(sem, vs, w, st))
  {
    StretchSnoc(vs, v, w);
    PickSnoc(Stretch(vs, w), Item(v.id !in w.members, Statement(v)), true);
    if v.id in w.members {
      assert Pick(Stretch(vs, w), true) + [] == Pick(Stretch(vs, w), true);
    } else {
      ExecSnoc(sem, Pick(Stretch(vs, w), true), Statement(v), st);
    }
  }

  /** Emitting up to position `k` of a window runs what is no member. */
  lemma {:induction false} EmitsEarly<M>(sem: Sem<nat, M>, u: Fusion, p: Planned, vs: seq<Value>, k: nat,
                                         st: State<nat, M>)
    requires Stands(u, p, vs) && p.first <= k <= p.last && Total(st)
    ensures EmitFrom(sem, u, vs, p.first, st) == EmitFrom(sem, u, vs, k, Early(sem, vs[p.first..k], p.w, st))
    decreases k
  {
    if k == p.first {
      assert vs[p.first..k] == [];
    } else {
      EmitsEarly(sem, u, p, vs, k - 1, st);
      assert vs[p.first..k] == vs[p.first..k - 1] + [vs[k - 1]];
      EarlySnoc(sem, vs[p.first..k - 1], vs[k - 1], p.w, st);
      assert Inside(u, p, vs, k - 1);
    }
  }

  /** Emitting a whole window: first what is no member, then the members at once. */
  lemma EmitsStretch<M>(sem: Sem<nat, M>, u: Fusion, p: Planned, vs: seq<Value>, st: State<nat, M>)
    requires Stands(u, p, vs) && Total(st)
    ensures EmitFrom(sem, u, vs, p.first, st)
            == EmitFrom(sem, u, vs, p.last + 1, Fused(sem, vs[p.first..p.last + 1], p.w, st))
  {
    EmitsEarly(sem, u, p, vs, p.last, st);
    assert vs[p.first..p.last + 1] == vs[p.first..p.last] + [vs[p.last]];
    EarlySnoc(sem, vs[p.first..p.last], vs[p.last], p.w, st);
    BodyIsFused(sem, p, vs, st);
  }

  lemma BodyIsFused<M>(sem: Sem<nat, M>, p: Planned, vs: seq<Value>, st: State<nat, M>)
    requires p.first <= p.last < |vs| && Total(st)
    ensures var vs' := vs[p.first..p.last + 1];
            Body(sem, p, vs, Early(sem, vs', p.w, st)) == Fused(sem, vs', p.w, st)
  {
  }

  // ----- agreement -----

  /** All values of a stretch in block order. */
  ghost function InOrder<M>(sem: Sem<nat, M>, vs: seq<Value>, w: Window, st: State<nat, M>): (r: State<nat, M>)
    requires Total(st)
    ensures Total(r)
  {
    ExecAll(sem, All(Stretch(vs, w)), st)
  }

  lemma InOrderSnoc<M>(sem: Sem<nat, M>, front: seq<Value>, v: Value, w: Window, st: State<nat, M>)
    requires Total(st)
    ensures InOrder(sem, front + [v], w, st) == Exec(sem, Statement(v), InOrder(sem, front, w, st))
  {
    AllOf(front, w);
    AllOf(front + [v], w);
    assert All(Stretch(front + [v], w)) == All(Stretch(front, w)) + [Statement(v)];
    ExecSnoc(sem, All(Stretch(front, w)), Statement(v), st);
  }

  lemma {:induction false} RunsSpan<M>(sem: Sem<nat, M>, u: Fusion, p: Planned, vs: seq<Value>, k: nat,
                                       st: State<nat, M>)
    requires Stands(u, p, vs) && p.first <= k <= p.last + 1 && Total(st)
    ensures RunFrom(sem, vs, p.first, st) == RunFrom(sem, vs, k, InOrder(sem, vs[p.first..k], p.w, st))
    decreases k
  {
    if k == p.first {
      assert vs[p.first..k] == [];
    } else {
      RunsSpan(sem, u, p, vs, k - 1, st);
      assert vs[p.first..k] == vs[p.first..k - 1] + [vs[k - 1]];
      InOrderSnoc(sem, vs[p.first..k - 1], vs[k - 1], p.w, st);
      assert Inside(u, p, vs, k - 1);
    }
  }

  /** A hidden member is read by members of its own window only. */
  lemma HiddenReader(f: seq<Block>, u: Fusion, x: nat, h: nat, b: nat, i: nat)
    requires x in u.at && FineEntry(f, u, x) && h in Hidden(u.at[x].w)
    requires b < |f| && i < |f[b].values| && h in f[b].values[i].args
    ensures f[b].values[i].id in u.at[x].w.members
  {
    assert ReadOnlyIn(f, MemberSet(u.at[x].w), h);
    assert f[b].values[i].id in MemberSet(u.at[x].w);
  }

  /** What belongs to no window reads nothing hidden. */
  lemma OutsiderReads(f: seq<Block>, u: Fusion, b: nat, i: nat)
    requires Fine(f, u) && b < |f| && i < |f[b].values| && f[b].values[i].id !in u.members
    ensures forall h :: h in Unset(u) ==> h !in f[b].values[i].args
  {
    forall h, x | x in u.at && h in Hidden(u.at[x].w)
      ensures h !in f[b].values[i].args
    {
      assert FineEntry(f, u, x);
      if h in f[b].values[i].args {
        HiddenReader(f, u, x, h, b, i);
        MemberInSpan(f, u, x, b, i);
      }
    }
  }

  /** Executing a statement that uses nothing unset sets what it defines. */
  lemma AgreeExec<M>(sem: Sem<nat, M>, s: Stmt<nat>, a: State<nat, M>, b: State<nat, M>, dead: set<nat>)
    requires AgreeOff(a, b, dead) && s.uses !! dead
    ensures AgreeOff(Exec(sem, s, a), Exec(sem, s, b), dead)
    ensures s.defines.Some? ==> AgreeOff(Exec(sem, s, a), Exec(sem, s, b), dead - {s.defines.value})
  {
    UsedSame(s, a, b);
  }

  /** The identifiers defined by a list of values. */
  function Defined(vs: seq<Value>): set<nat> {
    set v | v in vs :: v.id
  }

  /** A value of a window reads hidden members only once they are defined. */
  ghost predicate Fed(dead: set<nat>, p: Planned, vs: seq<Value>, i: nat)
    requires p.first <= i < |vs|
  {
    forall h :: h in dead && h in vs[i].args ==> h in Defined(vs[p.first..i])
  }

  lemma OwnReads(f: seq<Block>, u: Fusion, x: nat, i: nat, h: nat)
    requires x in u.at && FineEntry(f, u, x) && u.at[x].first <= i <= u.at[x].last
    requires h in Hidden(u.at[x].w) && h in f[u.at[x].b].values[i].args
    ensures h in Defined(f[u.at[x].b].values[u.at[x].first..i])
  {
    var p := u.at[x];
    var vs := f[p.b].values;
    NoPhiInside(f, u, x, i);
    assert DefinedWithin(f, p.b, p.first, p.last, h);
    var j: nat :| p.first <= j <= p.last && j < |vs| && vs[j].id == h;
    assert j < i;
    assert vs[p.first..i][j - p.first] == vs[j];
  }

  lemma SpanFed(f: seq<Block>, u: Fusion, x: nat, i: nat)
    requires Fine(f, u) && x in u.at && FineEntry(f, u, x) && u.at[x].first <= i <= u.at[x].last
    ensures Fed(Unset(u), u.at[x], f[u.at[x].b].values, i)
  {
    var p := u.at[x];
    forall h, y | y in u.at && h in Hidden(u.at[y].w) && h in f[p.b].values[i].args
      ensures h in Defined(f[p.b].values[p.first..i])
    {
      assert FineEntry(f, u, y);
      HiddenReader(f, u, y, h, p.b, i);
      if f[p.b].values[i].id !in p.w.members {
        StrangerIsNoMember(f, u, x, y, i);
      }
      assert x != y ==> Disjoint(u, x, y);
      SameWindow(u, x, y, f[p.b].values[i].id);
      OwnReads(f, u, x, i, h);
    }
  }

  /** In block order, a window run from states that agree ends in states that agree on its members too. */
  lemma {:induction false} SpanAgrees<M>(sem: Sem<nat, M>, p: Planned, vs: seq<Value>, k: nat, dead: set<nat>,
                                         a: State<nat, M>, b: State<nat, M>)
    requires p.first <= k <= p.last + 1 && p.last < |vs| && AgreeOff(a, b, dead)
    requires forall i :: p.first <= i <= p.last ==> Fed(dead, p, vs, i)
    ensures AgreeOff(InOrder(sem, vs[p.first..k], p.w, a), InOrder(sem, vs[p.first..k], p.w, b),
                     dead - Defined(vs[p.first..k]))
    decreases k
  {
    if k == p.first {
      assert vs[p.first..k] == [];
    } else {
      SpanAgrees(sem, p, vs, k - 1, dead, a, b);
      assert vs[p.first..k] == vs[p.first..k - 1] + [vs[k - 1]];
      assert Fed(dead, p, vs, k - 1);
      NextAgrees(sem, vs[p.first..k - 1], vs[k - 1], p.w, dead, a, b);
    }
  }

  lemma NextAgrees<M>(sem: Sem<nat, M>, front: seq<Value>, v: Value, w: Window, dead: set<nat>, a: State<nat, M>,
                      b: State<nat, M>)
    requires Total(a) && Total(b)
             && AgreeOff(InOrder(sem, front, w, a), InOrder(sem, front, w, b), dead - Defined(front))
    requires forall h :: h in dead && h in v.args ==> h in Defined(front)
    ensures AgreeOff(InOrder(sem, front + [v], w, a), InOrder(sem, front + [v], w, b), dead - Defined(front + [v]))
  {
    InOrderSnoc(sem, front, v, w, a);
    InOrderSnoc(sem, front, v, w, b);
    AgreeExec(sem, Statement(v), InOrder(sem, front, w, a), InOrder(sem, front, w, b), dead - Defined(front));
    assert dead - Defined(front) - {v.id} == dead - Defined(front + [v]);
  }

  lemma AgreeTrans<M>(a: State<nat, M>, b: State<nat, M>, c: State<nat, M>, s: set<nat>, dead: set<nat>)
    requires AgreeOff(a, b, dead) && AgreeOff(b, c, s) && s <= dead
    ensures AgreeOff(a, c, dead)
  {
  }

  lemma HiddenIsUnset(u: Fusion, x: nat)
    requires x in u.at
    ensures Hidden(u.at[x].w) <= Unset(u)
  {
    forall h | h in Hidden(u.at[x].w)
      ensures IsHidden(u, h)
    {
    }
  }

  lemma WindowInOrder<M>(sem: Sem<nat, M>, f: seq<Block>, u: Fusion, x: nat, a: State<nat, M>, b: State<nat, M>)
    requires Fine(f, u) && AgreeOff(a, b, Unset(u))
    requires x in u.at && u.at[x].b < |f| && u.at[x].first <= u.at[x].last < |f[u.at[x].b].values|
    ensures var p := u.at[x];
            var vs := f[p.b].values[p.first..p.last + 1];
            AgreeOff(InOrder(sem, vs, p.w, a), InOrder(sem, vs, p.w, b), Unset(u))
  {
    var p := u.at[x];
    assert FineEntry(f, u, x);
    forall i | p.first <= i <= p.last
      ensures Fed(Unset(u), p, f[p.b].values, i)
    {
      SpanFed(f, u, x, i);
    }
    SpanAgrees(sem, p, f[p.b].values, p.last + 1, Unset(u), a, b);
  }

  lemma WindowDeferred<M>(sem: Sem<nat, M>, f: seq<Block>, u: Fusion, x: nat, st: State<nat, M>)
    requires Fine(f, u) && Total(st)
    requires x in u.at && u.at[x].b < |f| && u.at[x].first <= u.at[x].last < |f[u.at[x].b].values|
    ensures var p := u.at[x];
            var vs := f[p.b].values[p.first..p.last + 1];
            AgreeOff(InOrder(sem, vs, p.w, st), Fused(sem, vs, p.w, st), Hidden(p.w))
  {
    var p := u.at[x];
    assert FineEntry(f, u, x);
    DeferralKeepsMeaning(sem, f, {}, p.w, p.b, p.first, p.last, st);
  }

  /** One window, run in block order on one side and as emitted on the other. */
  lemma WindowAgrees<M>(sem: Sem<nat, M>, f: seq<Block>, u: Fusion, x: nat, a: State<nat, M>, b: State<nat, M>)
    requires Fine(f, u) && AgreeOff(a, b, Unset(u))
    requires x in u.at && u.at[x].b < |f| && u.at[x].first <= u.at[x].last < |f[u.at[x].b].values|
    ensures var p := u.at[x];
            var vs := f[p.b].values[p.first..p.last + 1];
            AgreeOff(InOrder(sem, vs, p.w, a), Fused(sem, vs, p.w, b), Unset(u))
  {
    var p := u.at[x];
    var vs := f[p.b].values[p.first..p.last + 1];
    WindowInOrder(sem, f, u, x, a, b);
    WindowDeferred(sem, f, u, x, b);
    HiddenIsUnset(u, x);
    AgreeTrans(InOrder(sem, vs, p.w, a), InOrder(sem, vs, p.w, b), Fused(sem, vs, p.w, b), Hidden(p.w), Unset(u));
  }

  /** Where a window begins, both sides come to its end and agree there. */
  lemma WindowStep<M>(sem: Sem<nat, M>, f: seq<Block>, u: Fusion, k: nat, x: State<nat, M>, y: State<nat, M>)
    returns (x': State<nat, M>, y': State<nat, M>)
    requires Fine(f, u) && k in u.at && AgreeOff(x, y, Unset(u))
    ensures u.at[k].b < |f| && AgreeOff(x', y', Unset(u))
    ensures var p := u.at[k];
            && RunFrom(sem, f[p.b].values, p.first, x) == RunFrom(sem, f[p.b].values, p.last + 1, x')
            && EmitFrom(sem, u, f[p.b].values, p.first, y) == EmitFrom(sem, u, f[p.b].values, p.last + 1, y')
  {
    var p := u.at[k];
    WindowStands(f, u, k);
    var vs := f[p.b].values[p.first..p.last + 1];
    x', y' := InOrder(sem, vs, p.w, x), Fused(sem, vs, p.w, y);
    WindowAgrees(sem, f, u, k, x, y);
    RunsSpan(sem, u, p, f[p.b].values, p.last + 1, x);
    EmitsStretch(sem, u, p, f[p.b].values, y);
  }

  /** The window that begins at a member not inside another window. */
  lemma WindowAt(f: seq<Block>, u: Fusion, b: nat, i: nat) returns (k: nat)
    requires Fine(f, u) && b < |f| && i < |f[b].values| && Between(u, b, i) && f[b].values[i].id in u.members
    ensures k in u.at && u.at[k].b == b && u.at[k].first == i <= u.at[k].last < |f[b].values|
  {
    assert PlannedMember(u.at, f[b].values[i].id);
    k :| k in u.at && f[b].values[i].id in u.at[k].w.members;
    assert FineEntry(f, u, k);
    MemberInSpan(f, u, k, b, i);
  }

  /** A value of no window, other than a phi, is run on both sides. */
  lemma OutsideStep<M>(sem: Sem<nat, M>, f: seq<Block>, u: Fusion, b: nat, i: nat, x: State<nat, M>, y: State<nat, M>)
    returns (x': State<nat, M>, y': State<nat, M>)
    requires Fine(f, u) && b < |f| && i < |f[b].values| && f[b].values[i].id !in u.members && AgreeOff(x, y, Unset(u))
    ensures AgreeOff(x', y', Unset(u))
    ensures RunFrom(sem, f[b].values, i, x) == RunFrom(sem, f[b].values, i + 1, x')
    ensures EmitFrom(sem, u, f[b].values, i, y) == EmitFrom(sem, u, f[b].values, i + 1, y')
  {
    var v := f[b].values[i];
    assert v.id !in u.at by {
      if v.id in u.at {
        assert FineEntry(f, u, v.id);
        KeyIsMember(f, u, v.id);
      }
    }
    x', y' := x, y;
    if v.op != Phi {
      x', y' := Exec(sem, Statement(v), x), Exec(sem, Statement(v), y);
      OutsiderReads(f, u, b, i);
      AgreeExec(sem, Statement(v), x, y, Unset(u));
    }
  }

  /** A block emitted with its windows fused agrees with the block as it stands, but for what is never set. */
  lemma {:induction false} BlockAgrees<M>(sem: Sem<nat, M>, f: seq<Block>, u: Fusion, b: nat, i: nat,
                                          x: State<nat, M>, y: State<nat, M>)
    requires Fine(f, u) && b < |f| && i <= |f[b].values| && Between(u, b, i) && AgreeOff(x, y, Unset(u))
    ensures AgreeOff(RunFrom(sem, f[b].values, i, x), EmitFrom(sem, u, f[b].values, i, y), Unset(u))
    decreases |f[b].values| - i
  {
    if i < |f[b].values| {
      if f[b].values[i].id in u.members {
        var k := WindowAt(f, u, b, i);
        var x', y' := WindowStep(sem, f, u, k, x, y);
        SpansApart(f, u, k);
        BlockAgrees(sem, f, u, b, u.at[k].last + 1, x', y');
      } else {
        var x', y' := OutsideStep(sem, f, u, b, i, x, y);
        OutsideNext(f, u, b, i);
        BlockAgrees(sem, f, u, b, i + 1, x', y');
      }
    }
  }

  // ----- runs -----

  /** A block, and the phi copies of the edge taken out of it. */
  datatype Leg = Leg(b: nat, copies: seq<Stmt<nat>>)

  ghost predicate Along(f: seq<Block>, leg: Leg) {
    leg.b < |f| && forall k, x :: 0 <= k < |leg.copies| && x in leg.copies[k].uses ==> CopyMayRead(f, x)
  }

  /** Copies read arguments of phis, and temporaries that are no values of the function. */
  ghost predicate CopyMayRead(f: seq<Block>, x: nat) {
    || (forall b, i :: 0 <= b < |f| && 0 <= i < |f[b].values| ==> f[b].values[i].id != x)
    || (exists b, i :: 0 <= b < |f| && 0 <= i < |f[b].values| && f[b].values[i].op == Phi && x in f[b].values[i].args)
  }

  ghost function RunLegs<M>(sem: Sem<nat, M>, f: seq<Block>, legs: seq<Leg>, st: State<nat, M>): (r: State<nat, M>)
    requires Total(st)
    ensures Total(r)
  {
    if legs == [] then st
    else
      var before := RunLegs(sem, f, legs[..|legs| - 1], st);
      var leg := legs[|legs| - 1];
      if leg.b >= |f| then before else ExecAll(sem, leg.copies, RunFrom(sem, f[leg.b].values, 0, before))
  }

  ghost function EmitLegs<M>(sem: Sem<nat, M>, f: seq<Block>, u: Fusion, legs: seq<Leg>,
                             st: State<nat, M>): (r: State<nat, M>)
    requires Total(st)
    ensures Total(r)
  {
    if legs == [] then st
    else
      var before := EmitLegs(sem, f, u, legs[..|legs| - 1], st);
      var leg := legs[|legs| - 1];
      if leg.b >= |f| then before else ExecAll(sem, leg.copies, EmitFrom(sem, u, f[leg.b].values, 0, before))
  }

  lemma CopyReads(f: seq<Block>, u: Fusion, x: nat, h: nat)
    requires x in u.at && FineEntry(f, u, x) && h in Hidden(u.at[x].w)
    ensures !CopyMayRead(f, h)
  {
    var p := u.at[x];
    assert DefinedWithin(f, p.b, p.first, p.last, h);
    forall b, i | 0 <= b < |f| && 0 <= i < |f[b].values| && h in f[b].values[i].args
      ensures f[b].values[i].op != Phi
    {
      HiddenReader(f, u, x, h, b, i);
      MemberInSpan(f, u, x, b, i);
    }
  }

  lemma CopiesRead(f: seq<Block>, u: Fusion, leg: Leg)
    requires Fine(f, u) && Along(f, leg)
    ensures forall k :: 0 <= k < |leg.copies| ==> leg.copies[k].uses !! Unset(u)
  {
    forall h, x | x in u.at && h in Hidden(u.at[x].w)
      ensures !CopyMayRead(f, h)
    {
      assert FineEntry(f, u, x);
      CopyReads(f, u, x, h);
    }
    forall k, h | 0 <= k < |leg.copies| && h in leg.copies[k].uses
      ensures !IsHidden(u, h)
    {
      assert CopyMayRead(f, h);
    }
  }

  lemma {:induction false} LegsAgree<M>(sem: Sem<nat, M>, f: seq<Block>, u: Fusion, legs: seq<Leg>,
                                        x: State<nat, M>, y: State<nat, M>)
    requires Fine(f, u) && AgreeOff(x, y, Unset(u)) && forall k :: 0 <= k < |legs| ==> Along(f, legs[k])
    ensures AgreeOff(RunLegs(sem, f, legs, x), EmitLegs(sem, f, u, legs, y), Unset(u))
  {
    if legs != [] {
      var n := |legs| - 1;
      LegsAgree(sem, f, u, legs[..n], x, y);
      var x', y' := RunLegs(sem, f, legs[..n], x), EmitLegs(sem, f, u, legs[..n], y);
      assert Along(f, legs[n]) && Between(u, legs[n].b, 0);
      BlockAgrees(sem, f, u, legs[n].b, 0, x', y');
      CopiesRead(f, u, legs[n]);
      AgreementStays(sem, legs[n].copies, RunFrom(sem, f[legs[n].b].values, 0, x'),
                     EmitFrom(sem, u, f[legs[n].b].values, 0, y'),
                     Unset(u));
    }
  }

  /** Over every run, loops included, the function with all planned windows fused has every value but the hidden
      members, and memory, as the function in block order ... */
  lemma RunsAgree<M>(sem: Sem<nat, M>, f: seq<Block>, u: Fusion, legs: seq<Leg>, st: State<nat, M>)
    requires Sound(f, u) && Total(st) && forall k :: 0 <= k < |legs| ==> Along(f, legs[k])
    ensures AgreeOff(RunLegs(sem, f, legs, st), EmitLegs(sem, f, u, legs, st), Unset(u))
  {
    SoundIsFine(f, u);
    LegsAgree(sem, f, u, legs, st, st);
  }

  /** ... and whichever block comes next, both leave it on the same value of its control. */
  lemma SameWay<M>(sem: Sem<nat, M>, f: seq<Block>, u: Fusion, legs: seq<Leg>, st: State<nat, M>, b: nat)
    requires Sound(f, u) && Total(st) && forall k :: 0 <= k < |legs| ==> Along(f, legs[k])
    requires b < |f| && f[b].control.Some?
    ensures EmitFrom(sem, u, f[b].values, 0, EmitLegs(sem, f, u, legs, st)).env[f[b].control.value]
            == RunFrom(sem, f[b].values, 0, RunLegs(sem, f, legs, st)).env[f[b].control.value]
  {
    SoundIsFine(f, u);
    LegsAgree(sem, f, u, legs, st, st);
    assert Between(u, b, 0);
    BlockAgrees(sem, f, u, b, 0, RunLegs(sem, f, legs, st), EmitLegs(sem, f, u, legs, st));
    ControlSet(f, u, b);
  }

  /** No block branches on a hidden member. */
  lemma ControlSet(f: seq<Block>, u: Fusion, b: nat)
    requires Fine(f, u) && b < |f|
    ensures forall h :: h in Unset(u) ==> f[b].control != Some(h)
  {
    forall h, x | x in u.at && h in Hidden(u.at[x].w)
      ensures f[b].control != Some(h)
    {
      assert FineEntry(f, u, x);
      assert ReadOnlyIn(f, MemberSet(u.at[x].w), h);
    }
  }
}
