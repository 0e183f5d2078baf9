/** Which functions can be emitted as structured code: a survey of the graph, without emitting anything. */
module EmitSurvey {
  import opened Basics
  import opened Cfg

  /** What loop analysis says of a loop header: the block control flows to on loop
      exit, and whether the loop is one the emitter cannot handle. */
  datatype LoopInfo = LoopInfo(follow: Option<nat>, bad: bool)

  /** Whether expression rendering succeeds: for the values of a block, the return
      or throw statement, the branch condition or selector, the copies of an edge. */
  datatype Rendering = Rendering(
    values: nat -> bool,
    ret: nat -> bool,
    throws: nat -> bool,
    control: nat -> bool,
    copies: (nat, nat, nat) -> bool
  )

  /** The function, the tables, and the bounds on emitted blocks and on nested regions. */
  datatype Setting = Setting(
    f: Func, rendering: Rendering, postdom: map<nat, nat>, loops: map<nat, LoopInfo>, dupCap: nat, nestCap: nat
  )

  // ----- blocks -----

  /** The copies of all edges out of a block render. */
  predicate CopiesFine(t: Setting, b: nat, es: seq<Edge>) {
    forall i :: 0 <= i < |es| ==> t.rendering.copies(b, es[i].block, es[i].index)
  }

  /** The block is well formed for its kind, and all its pieces render. */
  predicate Fine(t: Setting, b: nat) {
    && b < |t.f.blocks| && t.rendering.values(b)
    && var blk := t.f.blocks[b];
    match blk.kind
    case Ret => t.rendering.ret(b)
    case Unreachable => true
    case Throw => t.rendering.throws(b)
    case Plain => |blk.succs| == 1 && CopiesFine(t, b, blk.succs)
    case If => |blk.succs| == 2 && blk.hasControl && blk.succs[0].block != blk.succs[1].block && t.rendering.control(b)
               && CopiesFine(t, b, blk.succs)
    case BrTable => |blk.succs| > 0 && blk.hasControl && |blk.cases| == |blk.succs| && t.rendering.control(b)
                    && CopiesFine(t, b, blk.succs)
    case Invalid => false
  }

  // ----- the walk -----

  /** A loop that is open: its header and its follow block. */
  datatype Open = Open(header: nat, follow: Option<nat>)

  /** Block `b` is next in a region that ends at `stop`, inside the `open` loops, at nesting `depth`. */
  datatype Pos = Pos(b: nat, stop: Option<nat>, open: seq<Open>, depth: nat)

  predicate Inside(open: seq<Open>, b: nat) {
    exists i :: 0 <= i < |open| && open[i].header == b
  }

  /** Control leaves for `target` by a break or continue. */
  predicate Leaves(open: seq<Open>, target: nat) {
    exists i :: 0 <= i < |open| && (open[i].header == target || open[i].follow == Some(target))
  }

  /** Does a loop begin here? */
  predicate Opens(t: Setting, p: Pos) {
    p.b in t.loops && !Inside(p.open, p.b)
  }

  /** The region goes on with `next`. */
  function Onward(p: Pos, next: Option<nat>): seq<Pos> {
    if next.Some? && next != p.stop then [p.(b := next.value)] else []
  }

  /** An arm of a branch is a region of its own, up to the join. */
  function Arm(p: Pos, target: nat, join: Option<nat>): seq<Pos> {
    if Leaves(p.open, target) || Some(target) == join then [] else [Pos(target, join, p.open, p.depth + 1)]
  }

  function Arms(p: Pos, es: seq<Edge>, join: Option<nat>): seq<Pos> {
    if es == [] then [] else Arms(p, es[..|es| - 1], join) + Arm(p, es[|es| - 1].block, join)
  }

  function JoinOf(t: Setting, b: nat): Option<nat> {
    if b in t.postdom then Some(t.postdom[b]) else None
  }

  /** The regions inside what is emitted here: the body of a loop, the arms of a branch. */
  function Inner(t: Setting, p: Pos): seq<Pos> {
    if Opens(t, p) then [Pos(p.b, None, p.open + [Open(p.b, t.loops[p.b].follow)], p.depth + 1)]
    else if Fine(t, p.b) && (t.f.blocks[p.b].kind == If || t.f.blocks[p.b].kind == BrTable) then
      Arms(p, t.f.blocks[p.b].succs, JoinOf(t, p.b))
    else []
  }

  /** Where the region goes on. */
  function Next(t: Setting, p: Pos): seq<Pos> {
    if Opens(t, p) then Onward(p, t.loops[p.b].follow)
    else if !Fine(t, p.b) then []
    else
      match t.f.blocks[p.b].kind
      case Plain =>
        var target := t.f.blocks[p.b].succs[0].block;
        if Leaves(p.open, target) then [] else Onward(p, Some(target))
      case If => AfterBranch(t, p)
      case BrTable => AfterBranch(t, p)
      case _ => []
  }

  function AfterBranch(t: Setting, p: Pos): seq<Pos> {
    var join := JoinOf(t, p.b);
    if join.Some? && Leaves(p.open, join.value) then [] else Onward(p, join)
  }

  // ----- the survey -----

  /** How many blocks are emitted, which, and whether one is not fine or a region is nested too deep. */
  datatype Survey = Survey(count: nat, seen: set<nat>, trouble: bool)

  const Nothing: Survey := Survey(0, {}, false)

  function Plus(a: Survey, b: Survey): Survey {
    Survey(a.count + b.count, a.seen + b.seen, a.trouble || b.trouble)
  }

  function Here(t: Setting, p: Pos): Survey {
    if Opens(t, p) then Nothing else Survey(1, {p.b}, !Fine(t, p.b))
  }

  /** What is found within `n` steps. */
  ghost function Look(t: Setting, p: Pos, n: nat): Survey
    decreases n, 0, 0
  {
    if n == 0 then Nothing
    else if p.depth > t.nestCap then Survey(0, {}, true)
    else Plus(Here(t, p), LookAll(t, Inner(t, p) + Next(t, p), n - 1))
  }

  ghost function LookAll(t: Setting, qs: seq<Pos>, n: nat): Survey
    decreases n, 1, |qs|
  {
    if qs == [] then Nothing else Plus(LookAll(t, qs[..|qs| - 1], n), Look(t, qs[|qs| - 1], n))
  }

  /** The whole walk from `p`: looking further finds nothing more. */
  ghost predicate LookTo(t: Setting, p: Pos, sv: Survey) {
    exists m: nat :: Settles(t, [p], sv, m)
  }

  ghost predicate ListTo(t: Setting, qs: seq<Pos>, sv: Survey) {
    exists m: nat :: Settles(t, qs, sv, m)
  }

  ghost predicate Settles(t: Setting, qs: seq<Pos>, sv: Survey, m: nat) {
    forall n: nat :: n >= m ==> LookAll(t, qs, n) == sv
  }

  /** After `c0` blocks the emitter must give up. */
  predicate Refuses(t: Setting, c0: nat, sv: Survey) {
    sv.trouble || c0 + sv.count > t.dupCap
  }

  ghost predicate ListFails(t: Setting, qs: seq<Pos>, c0: nat) {
    exists n: nat :: Refuses(t, c0, LookAll(t, qs, n))
  }

  ghost predicate Fails(t: Setting, p: Pos, c0: nat) {
    ListFails(t, [p], c0)
  }

  /** The function can be emitted: the walk comes to an end, emits every block, and meets no trouble. */
  ghost predicate Structurable(t: Setting, entry: nat) {
    exists sv :: LookTo(t, Start(entry), sv) && Suits(t, sv)
  }

  ghost predicate Suits(t: Setting, sv: Survey) {
    !sv.trouble && sv.count <= t.dupCap && sv.seen == Upto(|t.f.blocks|)
  }

  function Start(entry: nat): Pos {
    Pos(entry, None, [], 1)
  }

  // ----- lists -----

  lemma LookOne(t: Setting, p: Pos, n: nat)
    ensures LookAll(t, [p], n) == Look(t, p, n)
  {
    assert [p][..0] == [] && LookAll(t, [], n) == Nothing;
    assert {} + Look(t, p, n).seen == Look(t, p, n).seen;
  }

  lemma PlusNothing(a: Survey)
    ensures Plus(a, Nothing) == a && Plus(Nothing, a) == a
  {
  }

  lemma PlusPlus(a: Survey, b: Survey, c: Survey)
    ensures Plus(Plus(a, b), c) == Plus(a, Plus(b, c))
  {
  }

  lemma LookSnoc(t: Setting, qs: seq<Pos>, q: Pos, n: nat)
    ensures LookAll(t, qs + [q], n) == Plus(LookAll(t, qs, n), Look(t, q, n))
  {
    assert (qs + [q])[..|qs|] == qs;
  }

  lemma {:induction false} LookConcat(t: Setting, qs: seq<Pos>, rs: seq<Pos>, n: nat)
    ensures LookAll(t, qs + rs, n) == Plus(LookAll(t, qs, n), LookAll(t, rs, n))
    decreases |rs|
  {
    if rs == [] {
      assert qs + rs == qs;
      PlusNothing(LookAll(t, qs, n));
    } else {
      var front, last := rs[..|rs| - 1], rs[|rs| - 1];
      LookConcat(t, qs, front, n);
      LookSnoc(t, qs + front, last, n);
      PlusPlus(LookAll(t, qs, n), LookAll(t, front, n), Look(t, last, n));
      assert qs + rs == qs + front + [last];
    }
  }

  lemma EmptyTo(t: Setting)
    ensures ListTo(t, [], Nothing)
  {
    assert Settles(t, [], Nothing, 0);
  }

  lemma ConcatTo(t: Setting, qs: seq<Pos>, rs: seq<Pos>, a: Survey, b: Survey)
    requires ListTo(t, qs, a) && ListTo(t, rs, b)
    ensures ListTo(t, qs + rs, Plus(a, b))
  {
    var m: nat :| Settles(t, qs, a, m);
    var k: nat :| Settles(t, rs, b, k);
    var top := if m < k then k else m;
    forall n: nat | n >= top
      ensures LookAll(t, qs + rs, n) == Plus(a, b)
    {
      LookConcat(t, qs, rs, n);
    }
    assert Settles(t, qs + rs, Plus(a, b), top);
  }

  // ----- looking further finds no less -----

  predicate Within(a: Survey, b: Survey) {
    a.count <= b.count && a.seen <= b.seen && (a.trouble ==> b.trouble)
  }

  lemma {:induction false} LookGrows(t: Setting, p: Pos, n: nat)
    ensures Within(Look(t, p, n), Look(t, p, n + 1))
    decreases n, 0, 0
  {
    if n > 0 {
      LookAllGrows(t, Inner(t, p) + Next(t, p), n - 1);
    }
  }

  lemma {:induction false} LookAllGrows(t: Setting, qs: seq<Pos>, n: nat)
    ensures Within(LookAll(t, qs, n), LookAll(t, qs, n + 1))
    decreases n, 1, |qs|
  {
    if qs != [] {
      LookAllGrows(t, qs[..|qs| - 1], n);
      LookGrows(t, qs[|qs| - 1], n);
    }
  }

  lemma {:induction false} LookFurther(t: Setting, qs: seq<Pos>, n: nat, m: nat)
    requires n <= m
    ensures Within(LookAll(t, qs, n), LookAll(t, qs, m))
    decreases m
  {
    if n < m {
      LookFurther(t, qs, n, m - 1);
      LookAllGrows(t, qs, m - 1);
    }
  }

  /** A walk that comes to an end and meets no trouble does not fail. */
  lemma NotBoth(t: Setting, qs: seq<Pos>, sv: Survey, c0: nat)
    requires ListTo(t, qs, sv) && ListFails(t, qs, c0)
    ensures Refuses(t, c0, sv)
  {
    var m: nat :| Settles(t, qs, sv, m);
    var n: nat :| Refuses(t, c0, LookAll(t, qs, n));
    var top := if m < n then n else m;
    LookFurther(t, qs, n, top);
  }

  lemma FailsPrefix(t: Setting, qs: seq<Pos>, rs: seq<Pos>, c0: nat)
    requires ListFails(t, qs, c0)
    ensures ListFails(t, qs + rs, c0)
  {
    var n: nat :| Refuses(t, c0, LookAll(t, qs, n));
    LookConcat(t, qs, rs, n);
    assert Refuses(t, c0, LookAll(t, qs + rs, n));
  }

  lemma FailsBehind(t: Setting, qs: seq<Pos>, rs: seq<Pos>, a: Survey, c0: nat)
    requires ListTo(t, qs, a) && ListFails(t, rs, c0 + a.count)
    ensures ListFails(t, qs + rs, c0)
  {
    var m: nat :| Settles(t, qs, a, m);
    var n: nat :| Refuses(t, c0 + a.count, LookAll(t, rs, n));
    var top := if m < n then n else m;
    LookFurther(t, rs, n, top);
    LookConcat(t, qs, rs, top);
    assert LookAll(t, qs, top) == a;
    assert Refuses(t, c0, LookAll(t, qs + rs, top));
  }

  // ----- one position -----

  lemma NodeTo(t: Setting, p: Pos, sv: Survey)
    requires p.depth <= t.nestCap && ListTo(t, Inner(t, p) + Next(t, p), sv)
    ensures LookTo(t, p, Plus(Here(t, p), sv))
  {
    var m: nat :| Settles(t, Inner(t, p) + Next(t, p), sv, m);
    forall n: nat | n >= m + 1
      ensures LookAll(t, [p], n) == Plus(Here(t, p), sv)
    {
      LookOne(t, p, n);
      assert LookAll(t, Inner(t, p) + Next(t, p), n - 1) == sv;
    }
    assert Settles(t, [p], Plus(Here(t, p), sv), m + 1);
  }

  lemma NodeFails(t: Setting, p: Pos, c0: nat)
    requires p.depth <= t.nestCap && ListFails(t, Inner(t, p) + Next(t, p), c0 + Here(t, p).count)
    ensures Fails(t, p, c0)
  {
    var n: nat :| Refuses(t, c0 + Here(t, p).count, LookAll(t, Inner(t, p) + Next(t, p), n));
    LookOne(t, p, n + 1);
    assert Refuses(t, c0, LookAll(t, [p], n + 1));
  }

  /** The block itself is one too many, or not fine. */
  lemma HereFails(t: Setting, p: Pos, c0: nat)
    requires p.depth <= t.nestCap && Refuses(t, c0, Here(t, p))
    ensures Fails(t, p, c0)
  {
    var n: nat :| n > 0;
    HereWithin(t, p, n);
    LookOne(t, p, n);
    assert Refuses(t, c0, LookAll(t, [p], n));
  }

  lemma HereWithin(t: Setting, p: Pos, n: nat)
    requires p.depth <= t.nestCap && n > 0
    ensures Within(Here(t, p), Look(t, p, n))
  {
  }

  lemma TooDeep(t: Setting, p: Pos, c0: nat)
    requires p.depth > t.nestCap
    ensures Fails(t, p, c0)
  {
    var n: nat :| n > 0;
    LookOne(t, p, n);
    assert Refuses(t, c0, LookAll(t, [p], n));
  }

  /** Trouble in the inner regions. */
  lemma InnerFails(t: Setting, p: Pos, c0: nat)
    requires p.depth <= t.nestCap && ListFails(t, Inner(t, p), c0 + Here(t, p).count)
    ensures Fails(t, p, c0)
  {
    FailsPrefix(t, Inner(t, p), Next(t, p), c0 + Here(t, p).count);
    NodeFails(t, p, c0);
  }

  // ----- the arms of a branch -----

  datatype Side = Copying | Walking

  ghost predicate ArmsSide(t: Setting, p: Pos, es: seq<Edge>, join: Option<nat>, i: nat, acc: Survey, side: Side)
    requires i <= |es|
  {
    match side
    case Copying => CopiesFine(t, p.b, es[..i])
    case Walking => ListTo(t, Arms(p, es[..i], join), acc)
  }

  /** The first `i` arms are emitted, and that is `acc`. */
  ghost predicate ArmsDone(t: Setting, p: Pos, es: seq<Edge>, join: Option<nat>, i: nat, acc: Survey) {
    i <= |es| && forall side {:trigger ArmsSide(t, p, es, join, i, acc, side)} :: ArmsSide(t, p, es, join, i, acc, side)
  }

  /** Some arm cannot be emitted when `c0` blocks have been. */
  ghost predicate ArmsFail(t: Setting, p: Pos, es: seq<Edge>, join: Option<nat>, c0: nat) {
    exists i: nat :: ArmsFailAt(t, p, es, join, c0, i)
  }

  ghost predicate ArmsFailAt(t: Setting, p: Pos, es: seq<Edge>, join: Option<nat>, c0: nat, i: nat) {
    i < |es| && (!t.rendering.copies(p.b, es[i].block, es[i].index)
                 || ListFails(t, Arms(p, es[..i + 1], join), c0))
  }

  lemma ArmsStart(t: Setting, p: Pos, es: seq<Edge>, join: Option<nat>)
    ensures ArmsDone(t, p, es, join, 0, Nothing)
  {
    EmptyTo(t);
    forall side
      ensures ArmsSide(t, p, es, join, 0, Nothing, side)
    {
    }
  }

  lemma ArmsNext(t: Setting, p: Pos, es: seq<Edge>, join: Option<nat>, i: nat, acc: Survey, sv: Survey)
    requires ArmsDone(t, p, es, join, i, acc) && i < |es|
    requires t.rendering.copies(p.b, es[i].block, es[i].index) && ListTo(t, Arm(p, es[i].block, join), sv)
    ensures ArmsDone(t, p, es, join, i + 1, Plus(acc, sv))
  {
    assert ArmsSide(t, p, es, join, i, acc, Copying) && ArmsSide(t, p, es, join, i, acc, Walking);
    assert es[..i + 1] == es[..i] + [es[i]] && es[..i + 1][..i] == es[..i];
    ConcatTo(t, Arms(p, es[..i], join), Arm(p, es[i].block, join), acc, sv);
    var n, all := i + 1, Plus(acc, sv);
    forall side
      ensures ArmsSide(t, p, es, join, n, all, side)
    {
    }
  }

  lemma ArmsEnd(t: Setting, p: Pos, es: seq<Edge>, join: Option<nat>, sv: Survey)
    requires ArmsDone(t, p, es, join, |es|, sv)
    ensures CopiesFine(t, p.b, es) && ListTo(t, Arms(p, es, join), sv)
  {
    assert ArmsSide(t, p, es, join, |es|, sv, Copying) && ArmsSide(t, p, es, join, |es|, sv, Walking);
    assert es[..|es|] == es;
  }

  /** The next arm fails. */
  lemma ArmsFailed(t: Setting, p: Pos, es: seq<Edge>, join: Option<nat>, i: nat, acc: Survey, c0: nat)
    requires ArmsDone(t, p, es, join, i, acc) && i < |es|
    requires !t.rendering.copies(p.b, es[i].block, es[i].index)
             || ListFails(t, Arm(p, es[i].block, join), c0 + acc.count)
    ensures ArmsFail(t, p, es, join, c0)
  {
    if t.rendering.copies(p.b, es[i].block, es[i].index) {
      assert ArmsSide(t, p, es, join, i, acc, Walking);
      assert es[..i + 1][..i] == es[..i];
      FailsBehind(t, Arms(p, es[..i], join), Arm(p, es[i].block, join), acc, c0);
    }
    assert ArmsFailAt(t, p, es, join, c0, i);
  }

  lemma {:induction false} MoreArmsFail(t: Setting, p: Pos, es: seq<Edge>, join: Option<nat>, i: nat, c0: nat)
    requires i <= |es| && ListFails(t, Arms(p, es[..i], join), c0)
    ensures ListFails(t, Arms(p, es, join), c0)
    decreases |es| - i
  {
    if i == |es| {
      assert es[..i] == es;
    } else {
      assert es[..i + 1][..i] == es[..i];
      FailsPrefix(t, Arms(p, es[..i], join), Arm(p, es[i].block, join), c0);
      MoreArmsFail(t, p, es, join, i + 1, c0);
    }
  }

  lemma ArmsGiveUp(t: Setting, p: Pos, es: seq<Edge>, join: Option<nat>, c0: nat)
    requires ArmsFail(t, p, es, join, c0)
    ensures !CopiesFine(t, p.b, es) || ListFails(t, Arms(p, es, join), c0)
  {
    var i: nat :| ArmsFailAt(t, p, es, join, c0, i);
    if t.rendering.copies(p.b, es[i].block, es[i].index) {
      MoreArmsFail(t, p, es, join, i + 1, c0);
    }
  }

  /** The arms do not depend on where the region ends. */
  lemma {:induction false} SameArms(p: Pos, q: Pos, es: seq<Edge>, join: Option<nat>)
    requires p.open == q.open && p.depth == q.depth
    ensures Arms(p, es, join) == Arms(q, es, join)
  {
    if es != [] {
      SameArms(p, q, es[..|es| - 1], join);
    }
  }

  // ----- along a region -----

  /** From `p` the region has come to `q`, with `acc` found on the way. */
  ghost predicate Leads(t: Setting, p: Pos, q: seq<Pos>, acc: Survey) {
    && (forall sv {:trigger ListTo(t, q, sv)} :: ListTo(t, q, sv) ==> LookTo(t, p, Plus(acc, sv)))
    && (forall c0: nat {:trigger Fails(t, p, c0)} :: ListFails(t, q, c0 + acc.count) ==> Fails(t, p, c0))
  }

  lemma LeadsStart(t: Setting, p: Pos)
    ensures Leads(t, p, [p], Nothing)
  {
    forall sv | ListTo(t, [p], sv)
      ensures LookTo(t, p, Plus(Nothing, sv))
    {
      PlusNothing(sv);
      var m: nat :| Settles(t, [p], sv, m);
    }
  }

  /** One more piece: its inner regions settle. */
  lemma LeadsOn(t: Setting, p: Pos, q: Pos, acc: Survey, inner: Survey)
    requires Leads(t, p, [q], acc) && q.depth <= t.nestCap && ListTo(t, Inner(t, q), inner)
    ensures Leads(t, p, Next(t, q), Plus(acc, Plus(Here(t, q), inner)))
  {
    var all := Plus(acc, Plus(Here(t, q), inner));
    forall sv | ListTo(t, Next(t, q), sv)
      ensures LookTo(t, p, Plus(all, sv))
    {
      ConcatTo(t, Inner(t, q), Next(t, q), inner, sv);
      NodeTo(t, q, Plus(inner, sv));
      SameTo(t, q, Plus(Here(t, q), Plus(inner, sv)));
      PlusPlus(Here(t, q), inner, sv);
      PlusPlus(acc, Plus(Here(t, q), inner), sv);
    }
    forall c0: nat | ListFails(t, Next(t, q), c0 + all.count)
      ensures Fails(t, p, c0)
    {
      FailsBehind(t, Inner(t, q), Next(t, q), inner, c0 + acc.count + Here(t, q).count);
      NodeFails(t, q, c0 + acc.count);
    }
  }

  lemma SameTo(t: Setting, p: Pos, sv: Survey)
    ensures LookTo(t, p, sv) <==> ListTo(t, [p], sv)
  {
    if LookTo(t, p, sv) {
      var m: nat :| Settles(t, [p], sv, m);
    }
    if ListTo(t, [p], sv) {
      var m: nat :| Settles(t, [p], sv, m);
    }
  }

  lemma LeadsFails(t: Setting, p: Pos, q: Pos, acc: Survey, c0: nat)
    requires Leads(t, p, [q], acc) && Fails(t, q, c0 + acc.count)
    ensures Fails(t, p, c0)
  {
  }

  lemma LeadsEnd(t: Setting, p: Pos, acc: Survey)
    requires Leads(t, p, [], acc)
    ensures LookTo(t, p, acc)
  {
    EmptyTo(t);
    PlusNothing(acc);
  }

  // ----- the answer -----

  /** The walk settles on `sv`: it is accepted exactly when that suits. */
  lemma SettledAnswer(t: Setting, entry: nat, sv: Survey)
    requires LookTo(t, Start(entry), sv)
    ensures Structurable(t, entry) <==> Suits(t, sv)
  {
    forall other | LookTo(t, Start(entry), other)
      ensures other == sv
    {
      var m: nat :| Settles(t, [Start(entry)], sv, m);
      var k: nat :| Settles(t, [Start(entry)], other, k);
      var top := if m < k then k else m;
      assert LookAll(t, [Start(entry)], top) == sv;
    }
  }

  lemma FailedAnswer(t: Setting, entry: nat)
    requires Fails(t, Start(entry), 0)
    ensures !Structurable(t, entry)
  {
    forall sv | ListTo(t, [Start(entry)], sv)
      ensures !Suits(t, sv)
    {
      NotBoth(t, [Start(entry)], sv, 0);
    }
  }

  // ----- a loop -----

  predicate Shape(t: Setting, b: nat, kind: Kind, targets: seq<nat>)
    requires b < |t.f.blocks|
  {
    && t.f.blocks[b].kind == kind && |t.f.blocks[b].succs| == |targets|
    && forall i :: 0 <= i < |targets| ==> t.f.blocks[b].succs[i].block == targets[i]
  }

  /** Block 0 enters a loop at block 1, which goes through block 2 or leaves for block 3. */
  ghost predicate WhileLoop(t: Setting) {
    && |t.f.blocks| == 4 && (forall b :: 0 <= b < 4 ==> Fine(t, b))
    && Shape(t, 0, Plain, [1]) && Shape(t, 1, If, [2, 3]) && Shape(t, 2, Plain, [1]) && Shape(t, 3, Ret, [])
    && t.loops == map[1 := LoopInfo(Some(3), false)] && 1 in t.postdom && t.postdom[1] == 3
    && t.dupCap >= 4 && t.nestCap >= 3
  }

  /** The walk at a block whose inner regions and continuation are known. */
  lemma Walk(t: Setting, p: Pos, inner: seq<Pos>, next: seq<Pos>, a: Survey, b: Survey)
    requires p.depth <= t.nestCap && Inner(t, p) == inner && Next(t, p) == next
    requires ListTo(t, inner, a) && ListTo(t, next, b)
    ensures ListTo(t, [p], Plus(Here(t, p), Plus(a, b)))
  {
    ConcatTo(t, inner, next, a, b);
    NodeTo(t, p, Plus(a, b));
    SameTo(t, p, Plus(Here(t, p), Plus(a, b)));
  }

  /** A block with nothing inside and nothing behind. */
  lemma Last(t: Setting, p: Pos)
    requires p.depth <= t.nestCap && Fine(t, p.b) && !Opens(t, p) && Inner(t, p) == [] && Next(t, p) == []
    ensures ListTo(t, [p], Survey(1, {p.b}, false))
  {
    EmptyTo(t);
    Walk(t, p, [], [], Nothing, Nothing);
    assert Plus(Here(t, p), Plus(Nothing, Nothing)) == Survey(1, {p.b}, false);
  }

  lemma TwoArms(p: Pos, es: seq<Edge>, join: Option<nat>)
    requires |es| == 2
    ensures Arms(p, es, join) == Arm(p, es[0].block, join) + Arm(p, es[1].block, join)
  {
    var one := [es[0]];
    assert es[..1] == one && one[..0] == [];
    assert Arms(p, one, join) == Arms(p, [], join) + Arm(p, es[0].block, join);
  }

  lemma LoopArms(t: Setting, p: Pos, q: Pos)
    requires WhileLoop(t) && p.open == [Open(1, Some(3))] && q == Pos(2, Some(3), p.open, p.depth + 1)
    ensures Arms(p, t.f.blocks[1].succs, Some(3)) == [q]
  {
    var es := t.f.blocks[1].succs;
    TwoArms(p, es, Some(3));
    assert p.open[0].header == 1 && p.open[0].follow == Some(3);
    assert !Leaves(p.open, 2) && Leaves(p.open, 3);
  }

  lemma LoopBody(t: Setting)
    requires WhileLoop(t)
    ensures ListTo(t, [Pos(1, None, [Open(1, Some(3))], 2)], Survey(2, {1, 2}, false))
  {
    var open := [Open(1, Some(3))];
    var p, q := Pos(1, None, open, 2), Pos(2, Some(3), open, 3);
    assert Fine(t, 1) && open[0].header == 1 && open[0].follow == Some(3);
    EmptyTo(t);
    assert Fine(t, 2);
    Last(t, q);
    LoopArms(t, p, q);
    assert Leaves(open, 3);
    Walk(t, p, [q], [], Survey(1, {2}, false), Nothing);
    assert Plus(Here(t, p), Plus(Survey(1, {2}, false), Nothing)) == Survey(2, {1, 2}, false);
  }

  lemma LoopAtEntry(t: Setting)
    requires WhileLoop(t)
    ensures ListTo(t, [Start(1)], Survey(3, {1, 2, 3}, false))
  {
    var p1, p3 := Start(1), Start(3);
    assert Fine(t, 3);
    Last(t, p3);
    LoopBody(t);
    assert p1.open + [Open(1, Some(3))] == [Open(1, Some(3))];
    Walk(t, p1, [Pos(1, None, [Open(1, Some(3))], 2)], [p3], Survey(2, {1, 2}, false), Survey(1, {3}, false));
    assert Plus(Here(t, p1), Plus(Survey(2, {1, 2}, false), Survey(1, {3}, false))) == Survey(3, {1, 2, 3}, false);
  }

  /** A block that only leads on. */
  lemma Lead(t: Setting, p: Pos, q: Pos, rest: Survey)
    requires p.depth <= t.nestCap && Fine(t, p.b) && !Opens(t, p) && Inner(t, p) == [] && Next(t, p) == [q]
    requires ListTo(t, [q], rest) && !rest.trouble
    ensures LookTo(t, p, Survey(1 + rest.count, {p.b} + rest.seen, false))
  {
    EmptyTo(t);
    Walk(t, p, [], [q], Nothing, rest);
    assert Plus(Here(t, p), Plus(Nothing, rest)) == Survey(1 + rest.count, {p.b} + rest.seen, false);
    SameTo(t, p, Survey(1 + rest.count, {p.b} + rest.seen, false));
  }

  /** A `while` loop is accepted. */
  lemma WhileLoopFits(t: Setting)
    requires WhileLoop(t)
    ensures Structurable(t, 0)
  {
    LoopAtEntry(t);
    assert Fine(t, 0) && !Leaves(Start(0).open, 1);
    var rest := Survey(3, {1, 2, 3}, false);
    Lead(t, Start(0), Start(1), rest);
    AllFour(t, Survey(1 + rest.count, {0} + rest.seen, false));
  }

  lemma AllFour(t: Setting, sv: Survey)
    requires |t.f.blocks| == 4 && t.dupCap >= 4 && sv.count == 4 && sv.seen == {0, 1, 2, 3} && !sv.trouble
    ensures Suits(t, sv)
  {
    var n := |t.f.blocks|;
    assert Upto(n) == Upto(n - 1) + {3} && Upto(n - 1) == Upto(n - 2) + {2} && Upto(n - 2) == Upto(n - 3) + {1};
    assert Upto(n - 3) == {0};
  }
}
