/** Loop carries that share one register with their phi. */
module Coalesce {
  import opened Basics

  /** An SSA value: its identifier, and the values it reads with copies looked through. */
  datatype Value = Value(id: nat, isPhi: bool, args: seq<nat>)

  /** A successor: the block, and the position of the edge among its predecessors, which selects the
      arguments of its phis. */
  datatype Edge = Edge(block: nat, index: nat)

  datatype Block = Block(values: seq<Value>, control: Option<nat>, preds: seq<nat>, succs: seq<Edge>)

  ghost predicate Linked(f: seq<Block>) {
    && (forall b, i :: 0 <= b < |f| && 0 <= i < |f[b].succs| ==>
          f[b].succs[i].block < |f| && b in f[f[b].succs[i].block].preds)
    && (forall b, i :: 0 <= b < |f| && 0 <= i < |f[b].preds| ==> f[b].preds[i] < |f|)
  }

  // ----- the loop body -----

  /** A way from block `path[0]` to `src` that stays clear of `hdr`. */
  ghost predicate IsTrail(f: seq<Block>, src: nat, hdr: nat, path: seq<nat>) {
    && path != [] && path[|path| - 1] == src
    && (forall i :: 0 <= i < |path| ==> path[i] < |f| && path[i] != hdr)
    && (forall i :: 0 <= i < |path| - 1 ==> path[i] in f[path[i + 1]].preds)
  }

  ghost predicate InLoop(f: seq<Block>, src: nat, hdr: nat, b: nat) {
    b == hdr || exists path :: IsTrail(f, src, hdr, path) && path[0] == b
  }

  /** `body` holds every predecessor of its blocks, those of the header and of `todo` aside. */
  ghost predicate PredsIn(f: seq<Block>, hdr: nat, body: set<nat>, todo: seq<nat>) {
    forall b, p :: b in body && b != hdr && b !in todo && b < |f| && p in f[b].preds ==> p in body
  }

  lemma {:induction false} TrailIn(f: seq<Block>, src: nat, hdr: nat, body: set<nat>, path: seq<nat>)
    requires IsTrail(f, src, hdr, path) && src in body && PredsIn(f, hdr, body, [])
    ensures path[0] in body
    decreases |path|
  {
    if |path| > 1 {
      var rest := path[1..];
      forall i | 0 <= i < |rest| - 1
        ensures rest[i] in f[rest[i + 1]].preds
      {
        assert rest[i] == path[i + 1] && rest[i + 1] == path[(i + 1) + 1];
      }
      TrailIn(f, src, hdr, body, rest);
      assert path[0] in f[path[0 + 1]].preds;
    }
  }

  lemma TrailGrows(f: seq<Block>, src: nat, hdr: nat, b: nat, p: nat)
    requires InLoop(f, src, hdr, b) && b != hdr && p != hdr && p < |f| && b < |f| && p in f[b].preds
    ensures InLoop(f, src, hdr, p)
  {
    var path :| IsTrail(f, src, hdr, path) && path[0] == b;
    var longer := [p] + path;
    forall i | 0 <= i < |longer| - 1
      ensures longer[i] in f[longer[i + 1]].preds
    {
      if i > 0 {
        assert longer[i] == path[i - 1] && longer[i + 1] == path[(i - 1) + 1];
      }
    }
    assert IsTrail(f, src, hdr, longer) && longer[0] == p;
  }

  lemma SelfLoop(f: seq<Block>, hdr: nat, b: nat)
    requires InLoop(f, hdr, hdr, b)
    ensures b == hdr
  {
    forall path
      ensures !IsTrail(f, hdr, hdr, path)
    {
      if IsTrail(f, hdr, hdr, path) {
        TrailAvoids(f, hdr, hdr, path);
      }
    }
  }

  lemma TrailAvoids(f: seq<Block>, src: nat, hdr: nat, path: seq<nat>)
    requires IsTrail(f, src, hdr, path)
    ensures src != hdr
  {
    assert path[|path| - 1] != hdr;
  }

  /** All blocks found so far belong to the loop; those in `stack` are still to be looked at. */
  ghost predicate Found(f: seq<Block>, src: nat, hdr: nat, body: set<nat>, stack: seq<nat>) {
    && src in body && hdr in body
    && (forall x :: x in stack ==> x in body && x < |f| && x != hdr)
    && (forall x :: x in body ==> x < |f| && InLoop(f, src, hdr, x))
  }

  /** Takes in the predecessors of block `b`. */
  method AddPreds(f: seq<Block>, ghost src: nat, hdr: nat, b: nat, body: set<nat>, stack: seq<nat>)
    returns (body': set<nat>, stack': seq<nat>)
    requires Linked(f) && b < |f| && b != hdr && InLoop(f, src, hdr, b) && Found(f, src, hdr, body, stack)
    requires PredsIn(f, hdr, body, stack + [b])
    ensures Found(f, src, hdr, body', stack') && PredsIn(f, hdr, body', stack')
    ensures body <= body' && (body' == body ==> stack' == stack)
  {
    body', stack' := body, stack;
    for i := 0 to |f[b].preds|
      invariant body <= body' && (body' == body ==> stack' == stack)
      invariant Found(f, src, hdr, body', stack') && PredsIn(f, hdr, body', stack' + [b])
      invariant forall k :: 0 <= k < i ==> f[b].preds[k] in body'
    {
      var p := f[b].preds[i];
      if p !in body' {
        if p != hdr {
          TrailGrows(f, src, hdr, b, p);
          stack' := stack' + [p];
        }
        body' := body' + {p};
      }
    }
  }

  /** The natural loop of the back edge `src` to `hdr`: the header, and the blocks from which
      the source can be reached without passing it. */
  method NaturalLoopBody(f: seq<Block>, src: nat, hdr: nat) returns (body: set<nat>)
    requires Linked(f) && src < |f| && hdr < |f|
    ensures forall b :: b in body <==> InLoop(f, src, hdr, b)
    ensures src in body && PredsIn(f, hdr, body, [])
  {
    body := {hdr};
    if src == hdr {
      forall b | InLoop(f, src, hdr, b)
        ensures b in body
      {
        SelfLoop(f, hdr, b);
      }
      return;
    }
    body := body + {src};
    assert IsTrail(f, src, hdr, [src]) && [src][0] == src;
    var stack := [src];
    while stack != []
      invariant Found(f, src, hdr, body, stack) && PredsIn(f, hdr, body, stack)
      decreases |f| - |body|, |stack|
    {
      ghost var before := body;
      var n := |stack| - 1;
      var b := stack[n];
      var rest := stack[..n];
      assert stack == rest + [b] && b in stack;
      assert forall x :: x in rest ==> x in stack;
      body, stack := AddPreds(f, src, hdr, b, body, rest);
      Smaller(|f|, before);
      Smaller(|f|, body);
      if body != before {
        Grew(before, body);
      }
    }
    forall b | InLoop(f, src, hdr, b)
      ensures b in body
    {
      if b != hdr {
        var path :| IsTrail(f, src, hdr, path) && path[0] == b;
        TrailIn(f, src, hdr, body, path);
      }
    }
  }

  lemma Smaller(n: nat, s: set<nat>)
    requires forall x :: x in s ==> x < n
    ensures |s| <= n
  {
    NoLarger(s, Upto(n));
  }

  lemma Grew(s: set<nat>, t: set<nat>)
    requires s <= t && s != t
    ensures |s| < |t|
  {
    var x :| x in t && x !in s;
    NoLarger(s, t - {x});
  }

  // ----- which carries are accepted -----

  /** Value `i` of block `b` reads phi `p` where carry `v` may have been written: at or after it in the latch, on
      an edge, or outside the loop, unless live-out reads are allowed. */
  predicate ReadsLate(f: seq<Block>, body: set<nat>, latch: nat, vIdx: nat, p: nat, v: nat, liveOut: bool, b: nat,
                      i: nat)
    requires b < |f| && i < |f[b].values|
  {
    var x := f[b].values[i];
    p in x.args && x.id != v && if b !in body then !liveOut else x.isPhi || (b == latch && i >= vIdx)
  }

  predicate ControlLate(f: seq<Block>, body: set<nat>, latch: nat, p: nat, b: nat)
    requires b < |f|
  {
    f[b].control == Some(p) && (b !in body || b == latch)
  }

  /** The carry is a value of the latch, and every other read of the phi comes earlier. */
  ghost predicate UsesSafe(f: seq<Block>, body: set<nat>, latch: nat, p: nat, v: nat, liveOut: bool, vIdx: nat)
    requires latch < |f|
  {
    && vIdx < |f[latch].values| && f[latch].values[vIdx].id == v
    && (forall i :: 0 <= i < vIdx ==> f[latch].values[i].id != v)
    && (forall b, i :: 0 <= b < |f| && 0 <= i < |f[b].values| ==>
          !ReadsLate(f, body, latch, vIdx, p, v, liveOut, b, i))
    && (forall b :: 0 <= b < |f| ==> !ControlLate(f, body, latch, p, b))
  }

  /** The check. */
  method CoalesceUsesSafe(f: seq<Block>, body: set<nat>, latch: nat, p: nat, v: nat, liveOut: bool)
    returns (safe: bool, vIdx: nat)
    requires latch < |f|
    ensures safe <==> exists i: nat :: UsesSafe(f, body, latch, p, v, liveOut, i)
    ensures safe ==> UsesSafe(f, body, latch, p, v, liveOut, vIdx)
  {
    vIdx := 0;
    while vIdx < |f[latch].values| && f[latch].values[vIdx].id != v
      invariant vIdx <= |f[latch].values| && forall i :: 0 <= i < vIdx ==> f[latch].values[i].id != v
    {
      vIdx := vIdx + 1;
    }
    if vIdx == |f[latch].values| {
      return false, vIdx;
    }
    forall i: nat | UsesSafe(f, body, latch, p, v, liveOut, i)
      ensures i == vIdx
    {
    }
    for b := 0 to |f|
      invariant forall c, i :: 0 <= c < b && 0 <= i < |f[c].values| ==>
                  !ReadsLate(f, body, latch, vIdx, p, v, liveOut, c, i)
      invariant forall c :: 0 <= c < b ==> !ControlLate(f, body, latch, p, c)
    {
      for i := 0 to |f[b].values|
        invariant forall j :: 0 <= j < i ==> !ReadsLate(f, body, latch, vIdx, p, v, liveOut, b, j)
      {
        if ReadsLate(f, body, latch, vIdx, p, v, liveOut, b, i) {
          return false, vIdx;
        }
      }
      if ControlLate(f, body, latch, p, b) {
        return false, vIdx;
      }
    }
    assert UsesSafe(f, body, latch, p, v, liveOut, vIdx);
    safe := true;
  }

  // ----- what the code does -----

  /** What the code computes.  `value` is a value other than the carry, `carry` the carry itself, `edge` the phi
      copies of an edge other than the phi's own, `init` the phi's own copy when its argument is not the carry,
      `branch` the successor taken.  The contents of phi and carry are passed only to what reads them.  `clobber`
      is what code outside the loop makes of the register. */
  datatype Code<!S> = Code(
    value: (nat, nat, Option<int>, Option<int>, S) -> S,
    carry: (Option<int>, S) -> int,
    edge: (nat, nat, Option<int>, S) -> S,
    init: (nat, nat, S) -> int,
    branch: (nat, Option<int>, Option<int>, S) -> nat,
    clobber: (nat, int, S) -> int
  )

  /** The loop: its body, latch and header, its phi and carry, and where in the latch the carry is. */
  datatype Loop = Loop(body: set<nat>, latch: nat, hdr: nat, p: nat, v: nat, vIdx: nat)

  function Pass(read: bool, x: int): Option<int> {
    if read then Some(x) else None
  }

  /** On edge `i` of block `b` the phi of the loop takes the carry. */
  predicate Carried(f: seq<Block>, l: Loop, b: nat, i: nat)
    requires b < |f| && i < |f[b].succs| && f[b].succs[i].block < |f|
  {
    var e := f[b].succs[i];
    e.block == l.hdr && exists x :: x in f[e.block].values && x.id == l.p && Takes(x, e.index, l.v)
  }

  /** On edge `i` of block `b` another phi takes the carry. */
  predicate Copied(f: seq<Block>, l: Loop, b: nat, i: nat)
    requires b < |f| && i < |f[b].succs| && f[b].succs[i].block < |f|
  {
    var e := f[b].succs[i];
    exists x :: x in f[e.block].values && x.id != l.p && Takes(x, e.index, l.v)
  }

  predicate Takes(x: Value, index: nat, v: nat) {
    x.isPhi && index < |x.args| && x.args[index] == v
  }

  // ----- phi and carry apart -----

  datatype Split<S> = Split(p: int, v: int, s: S)

  /** Runs the first `n` values of block `b`; phis are set on the edges. */
  ghost function SplitValues<S>(f: seq<Block>, l: Loop, c: Code<S>, b: nat, n: nat, st: Split<S>): Split<S>
    requires b < |f| && n <= |f[b].values|
  {
    if n == 0 then st
    else
      var t := SplitValues(f, l, c, b, n - 1, st);
      var x := f[b].values[n - 1];
      if x.isPhi then t
      else if b == l.latch && n - 1 == l.vIdx then t.(v := c.carry(Pass(l.p in x.args, t.p), t.s))
      else t.(s := c.value(b, n - 1, Pass(l.p in x.args, t.p), Pass(l.v in x.args, t.v), t.s))
  }

  ghost function SplitNext<S>(f: seq<Block>, l: Loop, c: Code<S>, b: nat, t: Split<S>): nat
    requires b < |f|
  {
    c.branch(b, Pass(f[b].control == Some(l.p), t.p), Pass(f[b].control == Some(l.v), t.v), t.s)
  }

  /** Takes edge `i` of block `b`. */
  ghost function SplitEdge<S>(f: seq<Block>, l: Loop, c: Code<S>, b: nat, i: nat, t: Split<S>): Split<S>
    requires Linked(f) && b < |f| && i < |f[b].succs|
  {
    var s := c.edge(b, i, Pass(Copied(f, l, b, i), t.v), t.s);
    if f[b].succs[i].block != l.hdr then t.(s := s)
    else if Carried(f, l, b, i) then t.(p := t.v, s := s)
    else t.(p := c.init(b, i, t.s), s := s)
  }

  /** The block and the state after `k` blocks. */
  ghost function SplitRun<S>(f: seq<Block>, l: Loop, c: Code<S>, b: nat, st: Split<S>, k: nat): (nat, Split<S>)
    requires Linked(f)
    decreases k
  {
    if k == 0 || b >= |f| then (b, st)
    else
      var t := SplitValues(f, l, c, b, |f[b].values|, st);
      var i := SplitNext(f, l, c, b, t);
      if i >= |f[b].succs| then (b, t)
      else SplitRun(f, l, c, f[b].succs[i].block, SplitEdge(f, l, c, b, i, t), k - 1)
  }

  // ----- phi and carry in one register -----

  datatype Shared<S> = Shared(r: int, s: S)

  ghost function SharedValues<S>(f: seq<Block>, l: Loop, c: Code<S>, b: nat, n: nat, st: Shared<S>): Shared<S>
    requires b < |f| && n <= |f[b].values|
  {
    if n == 0 then st
    else
      var t := SharedValues(f, l, c, b, n - 1, st);
      var x := f[b].values[n - 1];
      if x.isPhi then t
      else if b == l.latch && n - 1 == l.vIdx then t.(r := c.carry(Pass(l.p in x.args, t.r), t.s))
      else
        var s := c.value(b, n - 1, Pass(l.p in x.args, t.r), Pass(l.v in x.args, t.r), t.s);
        Shared(if b in l.body then t.r else c.clobber(b, t.r, s), s)
  }

  ghost function SharedNext<S>(f: seq<Block>, l: Loop, c: Code<S>, b: nat, t: Shared<S>): nat
    requires b < |f|
  {
    c.branch(b, Pass(f[b].control == Some(l.p), t.r), Pass(f[b].control == Some(l.v), t.r), t.s)
  }

  /** The copy of the carry into the phi is left out. */
  ghost function SharedEdge<S>(f: seq<Block>, l: Loop, c: Code<S>, b: nat, i: nat, t: Shared<S>): Shared<S>
    requires Linked(f) && b < |f| && i < |f[b].succs|
  {
    var s := c.edge(b, i, Pass(Copied(f, l, b, i), t.r), t.s);
    if f[b].succs[i].block != l.hdr || Carried(f, l, b, i) then t.(s := s)
    else Shared(c.init(b, i, t.s), s)
  }

  ghost function SharedRun<S>(f: seq<Block>, l: Loop, c: Code<S>, b: nat, st: Shared<S>, k: nat): (nat, Shared<S>)
    requires Linked(f)
    decreases k
  {
    if k == 0 || b >= |f| then (b, st)
    else
      var t := SharedValues(f, l, c, b, |f[b].values|, st);
      var i := SharedNext(f, l, c, b, t);
      if i >= |f[b].succs| then (b, t)
      else SharedRun(f, l, c, f[b].succs[i].block, SharedEdge(f, l, c, b, i, t), k - 1)
  }

  // ----- reads of the phi -----

  /** The accepted loop: its body is closed, and inside it the latch only goes back to the header. */
  ghost predicate Accepted(f: seq<Block>, l: Loop, liveOut: bool) {
    && Linked(f) && l.latch < |f| && l.hdr < |f| && l.latch in l.body && l.hdr in l.body
    && PredsIn(f, l.hdr, l.body, [])
    && UsesSafe(f, l.body, l.latch, l.p, l.v, liveOut, l.vIdx)
    && (forall i :: 0 <= i < |f[l.latch].succs| && f[l.latch].succs[i].block in l.body ==>
          f[l.latch].succs[i].block == l.hdr)
  }

  /** The carry has been written in this execution of the latch. */
  predicate Written(l: Loop, b: nat, n: nat) {
    b == l.latch && n > l.vIdx
  }

  /** A run in one register that remembers what the register held at the last header entry. */
  ghost function WatchRun<S>(f: seq<Block>, l: Loop, c: Code<S>, b: nat, st: Shared<S>, last: int, k: nat)
    : (nat, Shared<S>, int)
    requires Linked(f)
    decreases k
  {
    if k == 0 || b >= |f| then (b, st, last)
    else
      var t := SharedValues(f, l, c, b, |f[b].values|, st);
      var i := SharedNext(f, l, c, b, t);
      if i >= |f[b].succs| then (b, t, last)
      else
        var next := f[b].succs[i].block;
        var u := SharedEdge(f, l, c, b, i, t);
        WatchRun(f, l, c, next, u, if next == l.hdr then u.r else last, k - 1)
  }

  lemma {:induction false} WatchIsRun<S>(f: seq<Block>, l: Loop, c: Code<S>, b: nat, st: Shared<S>, last: int, k: nat)
    requires Linked(f)
    ensures var w := WatchRun(f, l, c, b, st, last, k); SharedRun(f, l, c, b, st, k) == (w.0, w.1)
    decreases k
  {
    if k > 0 && b < |f| {
      var t := SharedValues(f, l, c, b, |f[b].values|, st);
      var i := SharedNext(f, l, c, b, t);
      if i < |f[b].succs| {
        var next := f[b].succs[i].block;
        var u := SharedEdge(f, l, c, b, i, t);
        WatchIsRun(f, l, c, next, u, if next == l.hdr then u.r else last, k - 1);
      }
    }
  }

  /** Every value other than the carry, and the control, finds in the register what it held at the last
      header entry. */
  ghost predicate ReadsEntry<S>(f: seq<Block>, l: Loop, c: Code<S>, b: nat, st: Shared<S>, last: int)
    requires b < |f|
  {
    && (forall n {:trigger SharedValues(f, l, c, b, n, st)} ::
          0 <= n < |f[b].values| && ReadsPhi(f[b].values[n], l) ==> SharedValues(f, l, c, b, n, st).r == last)
    && (f[b].control == Some(l.p) ==> SharedValues(f, l, c, b, |f[b].values|, st).r == last)
  }

  predicate ReadsPhi(x: Value, l: Loop) {
    !x.isPhi && x.id != l.v && l.p in x.args
  }

  /** Inside the loop the register keeps the phi until the carry is written. */
  lemma {:induction false} KeptInBody<S>(f: seq<Block>, l: Loop, c: Code<S>, b: nat, n: nat, st: Shared<S>)
    requires b < |f| && n <= |f[b].values| && b in l.body && !Written(l, b, n)
    ensures SharedValues(f, l, c, b, n, st).r == st.r
  {
    if n > 0 {
      KeptInBody(f, l, c, b, n - 1, st);
    }
  }

  lemma BodyReadsEntry<S>(f: seq<Block>, l: Loop, liveOut: bool, c: Code<S>, b: nat, st: Shared<S>, last: int)
    requires Accepted(f, l, liveOut) && b < |f| && b in l.body && st.r == last
    ensures ReadsEntry(f, l, c, b, st, last)
  {
    forall n | 0 <= n < |f[b].values| && ReadsPhi(f[b].values[n], l)
      ensures SharedValues(f, l, c, b, n, st).r == last
    {
      assert !ReadsLate(f, l.body, l.latch, l.vIdx, l.p, l.v, liveOut, b, n);
      KeptInBody(f, l, c, b, n, st);
    }
    assert !ControlLate(f, l.body, l.latch, l.p, b);
    if b != l.latch {
      KeptInBody(f, l, c, b, |f[b].values|, st);
    }
  }

  lemma NoReadsOutside<S>(f: seq<Block>, l: Loop, c: Code<S>, b: nat, st: Shared<S>, last: int)
    requires Accepted(f, l, false) && b < |f| && b !in l.body
    ensures ReadsEntry(f, l, c, b, st, last)
  {
    forall n | 0 <= n < |f[b].values|
      ensures !ReadsPhi(f[b].values[n], l)
    {
      assert !ReadsLate(f, l.body, l.latch, l.vIdx, l.p, l.v, false, b, n);
    }
    assert !ControlLate(f, l.body, l.latch, l.p, b);
  }

  /** Staying in the loop other than by entering the header keeps the register. */
  lemma BodyEdgeKeeps<S>(f: seq<Block>, l: Loop, liveOut: bool, c: Code<S>, b: nat, i: nat, st: Shared<S>)
    requires Accepted(f, l, liveOut) && b < |f| && i < |f[b].succs|
    requires f[b].succs[i].block in l.body && f[b].succs[i].block != l.hdr
    ensures b in l.body
    ensures SharedEdge(f, l, c, b, i, SharedValues(f, l, c, b, |f[b].values|, st)).r == st.r
  {
    assert b in f[f[b].succs[i].block].preds;
    KeptInBody(f, l, c, b, |f[b].values|, st);
  }

  /** Over every run, each read of the phi other than the carry's own sees what the phi was set to at the last header
      entry, although the carry overwrites the register; with live-out reads allowed, each read inside the loop. */
  lemma {:induction false} PhiReadsSeeEntry<S>(f: seq<Block>, l: Loop, liveOut: bool, c: Code<S>, b: nat,
                                               st: Shared<S>, last: int, k: nat)
    requires Accepted(f, l, liveOut) && (b in l.body ==> st.r == last)
    ensures var w := WatchRun(f, l, c, b, st, last, k);
            && SharedRun(f, l, c, b, st, k) == (w.0, w.1)
            && (w.0 < |f| && (w.0 in l.body || !liveOut) && Running(f, l, c, b, st, k) ==>
                  ReadsEntry(f, l, c, w.0, w.1, w.2))
    decreases k
  {
    WatchIsRun(f, l, c, b, st, last, k);
    if b < |f| {
      if b in l.body {
        BodyReadsEntry(f, l, liveOut, c, b, st, last);
      } else if !liveOut {
        NoReadsOutside(f, l, c, b, st, last);
      }
      if k > 0 {
        var t := SharedValues(f, l, c, b, |f[b].values|, st);
        var i := SharedNext(f, l, c, b, t);
        if i < |f[b].succs| {
          var next := f[b].succs[i].block;
          var u := SharedEdge(f, l, c, b, i, t);
          if next in l.body && next != l.hdr {
            BodyEdgeKeeps(f, l, liveOut, c, b, i, st);
          }
          PhiReadsSeeEntry(f, l, liveOut, c, next, u, if next == l.hdr then u.r else last, k - 1);
        }
      }
    }
  }

  /** The run has not ended before its `k`-th block. */
  ghost predicate Running<S>(f: seq<Block>, l: Loop, c: Code<S>, b: nat, st: Shared<S>, k: nat)
    requires Linked(f)
    decreases k
  {
    k > 0 && b < |f| ==>
      var t := SharedValues(f, l, c, b, |f[b].values|, st);
      var i := SharedNext(f, l, c, b, t);
      i < |f[b].succs| && Running(f, l, c, f[b].succs[i].block, SharedEdge(f, l, c, b, i, t), k - 1)
  }

  /** What the latch leaves in the register is what the carry computed, so a phi that takes the carry on the
      back edge is set to it although the copy is left out. */
  lemma {:induction false} LatchHandsOver<S>(f: seq<Block>, l: Loop, liveOut: bool, c: Code<S>, n: nat, st: Shared<S>)
    requires Accepted(f, l, liveOut) && !f[l.latch].values[l.vIdx].isPhi && l.vIdx < n <= |f[l.latch].values|
    ensures var t := SharedValues(f, l, c, l.latch, l.vIdx, st);
            SharedValues(f, l, c, l.latch, n, st).r
            == c.carry(Pass(l.p in f[l.latch].values[l.vIdx].args, t.r), t.s)
  {
    if n > l.vIdx + 1 {
      LatchHandsOver(f, l, liveOut, c, n - 1, st);
    }
  }

  // ----- live-out reads of the phi -----

  /** Nothing outside the loop touches the register, as for homes that no later code uses. */
  ghost predicate Spares<S(!new)>(c: Code<S>) {
    forall b: nat, r: int, s: S :: c.clobber(b, r, s) == r
  }

  lemma {:induction false} KeptEverywhere<S(!new)>(f: seq<Block>, l: Loop, c: Code<S>, b: nat, n: nat, st: Shared<S>)
    requires Spares(c) && b < |f| && n <= |f[b].values| && !Written(l, b, n)
    ensures SharedValues(f, l, c, b, n, st).r == st.r
  {
    if n > 0 {
      KeptEverywhere(f, l, c, b, n - 1, st);
    }
  }

  /** After `k` blocks, has the run left the loop by the latch since the header was last entered?  `gone` says
      whether it had before. */
  ghost predicate LeftByLatch<S>(f: seq<Block>, l: Loop, c: Code<S>, b: nat, st: Shared<S>, gone: bool, k: nat)
    requires Linked(f)
    decreases k
  {
    if k == 0 || b >= |f| then gone
    else
      var t := SharedValues(f, l, c, b, |f[b].values|, st);
      var i := SharedNext(f, l, c, b, t);
      if i >= |f[b].succs| then gone
      else
        var next := f[b].succs[i].block;
        LeftByLatch(f, l, c, next, SharedEdge(f, l, c, b, i, t), next != l.hdr && (b == l.latch || gone), k - 1)
  }

  /** Unless the run has left the loop by the latch, the register holds the phi everywhere until the carry is
      written, after the loop too. */
  lemma {:induction false} LiveOutSeesEntry<S(!new)>(f: seq<Block>, l: Loop, c: Code<S>, b: nat, st: Shared<S>,
                                                     last: int, gone: bool, k: nat, n: nat)
    requires Accepted(f, l, true) && Spares(c) && (gone || st.r == last)
    ensures var w := WatchRun(f, l, c, b, st, last, k);
            && SharedRun(f, l, c, b, st, k) == (w.0, w.1)
            && (w.0 < |f| && n <= |f[w.0].values| && !Written(l, w.0, n) && Running(f, l, c, b, st, k)
                && !LeftByLatch(f, l, c, b, st, gone, k) ==>
                  SharedValues(f, l, c, w.0, n, w.1).r == w.2)
    decreases k
  {
    WatchIsRun(f, l, c, b, st, last, k);
    if b < |f| {
      if n <= |f[b].values| && !Written(l, b, n) {
        KeptEverywhere(f, l, c, b, n, st);
      }
      if k > 0 {
        var t := SharedValues(f, l, c, b, |f[b].values|, st);
        var i := SharedNext(f, l, c, b, t);
        if i < |f[b].succs| {
          var next := f[b].succs[i].block;
          var u := SharedEdge(f, l, c, b, i, t);
          if next != l.hdr && b != l.latch {
            KeptEverywhere(f, l, c, b, |f[b].values|, st);
          }
          LiveOutSeesEntry(f, l, c, next, u, if next == l.hdr then u.r else last,
                           next != l.hdr && (b == l.latch || gone),
                           k - 1, n);
        }
      }
    }
  }

  /** The register holds the phi after edge `i` of block `b` whatever the code computes. */
  ghost predicate EdgeKeepsPhi(f: seq<Block>, l: Loop, b: nat, i: nat)
    requires Linked(f) && b < |f| && i < |f[b].succs|
  {
    forall c: Code<int>, st: Shared<int> ::
      SharedEdge(f, l, c, b, i, SharedValues(f, l, c, b, |f[b].values|, st)).r == st.r
  }

  /** A way out of the loop hands on the phi, for live-out reads, exactly when it does not start at the latch. */
  lemma ExitKeepsPhiIff(f: seq<Block>, l: Loop, liveOut: bool, b: nat, i: nat)
    requires Accepted(f, l, liveOut) && !f[l.latch].values[l.vIdx].isPhi
    requires b in l.body && b < |f| && i < |f[b].succs| && f[b].succs[i].block !in l.body
    ensures EdgeKeepsPhi(f, l, b, i) <==> b != l.latch
  {
    if b != l.latch {
      forall c: Code<int>, st: Shared<int>
        ensures SharedEdge(f, l, c, b, i, SharedValues(f, l, c, b, |f[b].values|, st)).r == st.r
      {
        KeptInBody(f, l, c, b, |f[b].values|, st);
      }
    } else {
      var c := Plain(1);
      var st := Shared(0, 0);
      LatchHandsOver(f, l, liveOut, c, |f[b].values|, st);
      assert SharedEdge(f, l, c, b, i, SharedValues(f, l, c, b, |f[b].values|, st)).r == 1;
    }
  }

  /** Code that only computes a constant carry. */
  ghost function Plain(carry: int): Code<int> {
    Code((b, n, p, v, s) => s, (p, s) => carry, (b, i, v, s) => s, (b, i, s) => 0, (b, p, v, s) => 0, (b, r, s) => 0)
  }

  // ----- reads of the carry -----

  /** The carry has one definition, in the latch, and is no phi. */
  ghost predicate OneCarry(f: seq<Block>, l: Loop) {
    && l.latch < |f| && l.vIdx < |f[l.latch].values| && !f[l.latch].values[l.vIdx].isPhi
    && (forall b, i ::
          0 <= b < |f| && 0 <= i < |f[b].values| && f[b].values[i].id == l.v ==> b == l.latch && i == l.vIdx)
  }

  /** Value `n` of block `b` reads the carry. */
  predicate ReadsCarry(f: seq<Block>, l: Loop, b: nat, n: nat)
    requires b < |f| && n < |f[b].values|
  {
    !f[b].values[n].isPhi && !(b == l.latch && n == l.vIdx) && l.v in f[b].values[n].args
  }

  /** Block `b` reads the carry, if at all, in the latch after it is written, or at the end of the latch. */
  ghost predicate CarryLocal(f: seq<Block>, l: Loop, b: nat)
    requires Linked(f) && b < |f|
  {
    && (forall n :: 0 <= n < |f[b].values| && ReadsCarry(f, l, b, n) ==> Written(l, b, n))
    && (b != l.latch ==>
          f[b].control != Some(l.v)
          && forall i :: 0 <= i < |f[b].succs| ==> !Carried(f, l, b, i) && !Copied(f, l, b, i))
  }

  /** The register holds the phi in the loop until the carry is written, and then the carry. */
  ghost predicate Same<S>(l: Loop, b: nat, n: nat, x: Split<S>, y: Shared<S>) {
    && x.s == y.s
    && (b in l.body ==> y.r == if Written(l, b, n) then x.v else x.p)
  }

  /** One value: what it reads of phi and carry is in the register. */
  lemma SameValue<S>(f: seq<Block>, l: Loop, c: Code<S>, b: nat, n: nat, x: Split<S>, y: Shared<S>)
    requires Accepted(f, l, false) && OneCarry(f, l) && b < |f| && n < |f[b].values| && !f[b].values[n].isPhi
    requires Same(l, b, n, x, y) && (ReadsCarry(f, l, b, n) ==> Written(l, b, n))
    ensures l.p in f[b].values[n].args ==> y.r == x.p
    ensures ReadsCarry(f, l, b, n) ==> y.r == x.v
  {
    assert !ReadsLate(f, l.body, l.latch, l.vIdx, l.p, l.v, false, b, n);
  }

  lemma {:induction false} SameValues<S>(f: seq<Block>, l: Loop, c: Code<S>, b: nat, n: nat, x: Split<S>, y: Shared<S>)
    requires Accepted(f, l, false) && OneCarry(f, l) && b < |f| && n <= |f[b].values| && CarryLocal(f, l, b)
    requires Same(l, b, 0, x, y)
    ensures Same(l, b, n, SplitValues(f, l, c, b, n, x), SharedValues(f, l, c, b, n, y))
  {
    if n > 0 {
      SameValues(f, l, c, b, n - 1, x, y);
      if !f[b].values[n - 1].isPhi {
        SameValue(f, l, c, b, n - 1, SplitValues(f, l, c, b, n - 1, x), SharedValues(f, l, c, b, n - 1, y));
      }
    }
  }

  lemma SameNext<S>(f: seq<Block>, l: Loop, c: Code<S>, b: nat, x: Split<S>, y: Shared<S>)
    requires Accepted(f, l, false) && OneCarry(f, l) && b < |f| && CarryLocal(f, l, b)
             && Same(l, b, |f[b].values|, x, y)
    ensures SplitNext(f, l, c, b, x) == SharedNext(f, l, c, b, y)
  {
    assert !ControlLate(f, l.body, l.latch, l.p, b);
  }

  lemma SameEdge<S>(f: seq<Block>, l: Loop, c: Code<S>, b: nat, i: nat, x: Split<S>, y: Shared<S>)
    requires Accepted(f, l, false) && OneCarry(f, l) && b < |f| && CarryLocal(f, l, b)
             && Same(l, b, |f[b].values|, x, y)
    requires i < |f[b].succs|
    ensures Same(l, f[b].succs[i].block, 0, SplitEdge(f, l, c, b, i, x), SharedEdge(f, l, c, b, i, y))
  {
    var t := f[b].succs[i].block;
    if t in l.body && t != l.hdr {
      assert b in f[t].preds && b in l.body;
    }
  }

  /** Block `b` does the same with phi and carry in one register as with both apart, whatever the code computes
      and from all states in which the register holds what it should. */
  ghost predicate BlockAgrees(f: seq<Block>, l: Loop, b: nat)
    requires Linked(f) && b < |f|
  {
    forall c: Code<int>, x: Split<int>, y: Shared<int> :: Same(l, b, 0, x, y) ==> AgreesOn(f, l, c, b, x, y)
  }

  ghost predicate AgreesOn<S>(f: seq<Block>, l: Loop, c: Code<S>, b: nat, x: Split<S>, y: Shared<S>)
    requires Linked(f) && b < |f|
  {
    var x', y' := SplitValues(f, l, c, b, |f[b].values|, x), SharedValues(f, l, c, b, |f[b].values|, y);
    && x'.s == y'.s && SplitNext(f, l, c, b, x') == SharedNext(f, l, c, b, y')
    && forall i :: 0 <= i < |f[b].succs| ==>
         Same(l, f[b].succs[i].block, 0, SplitEdge(f, l, c, b, i, x'), SharedEdge(f, l, c, b, i, y'))
  }

  lemma LocalAgrees<S>(f: seq<Block>, l: Loop, c: Code<S>, b: nat, x: Split<S>, y: Shared<S>)
    requires Accepted(f, l, false) && OneCarry(f, l) && b < |f| && CarryLocal(f, l, b) && Same(l, b, 0, x, y)
    ensures AgreesOn(f, l, c, b, x, y)
  {
    SameValues(f, l, c, b, |f[b].values|, x, y);
    var x', y' := SplitValues(f, l, c, b, |f[b].values|, x), SharedValues(f, l, c, b, |f[b].values|, y);
    SameNext(f, l, c, b, x', y');
    forall i | 0 <= i < |f[b].succs|
      ensures Same(l, f[b].succs[i].block, 0, SplitEdge(f, l, c, b, i, x'), SharedEdge(f, l, c, b, i, y'))
    {
      SameEdge(f, l, c, b, i, x', y');
    }
  }

  /** Code that stores the carry where value `(b, n)` reads it, and at edges and controls that read it. */
  ghost function Telling(b: nat, n: nat): Code<int> {
    Code((b', n', p, v: Option<int>, s) => if b' == b && n' == n && v.Some? then v.value else s,
         (p, s) => 0,
         (b', i, v: Option<int>, s) => if v.Some? then v.value else s,
         (b', i, s) => 0,
         (b', p, v: Option<int>, s) => if v == Some(1) then 1 else 0,
         (b', r, s) => 0)
  }

  /** Started with carry 1 and all else 0, a reader before the carry is written tells the two apart. */
  lemma {:induction false} TellsAfter(f: seq<Block>, l: Loop, b: nat, n: nat, k: nat)
    requires b < |f| && k <= |f[b].values| && n < |f[b].values| && ReadsCarry(f, l, b, n) && !Written(l, b, n)
    ensures SharedValues(f, l, Telling(b, n), b, k, Shared(0, 0)) == Shared(0, 0)
    ensures var x := SplitValues(f, l, Telling(b, n), b, k, Split(0, 1, 0));
            x.s == (if k > n then 1 else 0) && (!Written(l, b, k) ==> x.v == 1)
  {
    if k > 0 {
      TellsAfter(f, l, b, n, k - 1);
    }
  }

  /** Without such a reader, everything stays as it was up to the end of a block other than the latch. */
  lemma {:induction false} TellsNothing(f: seq<Block>, l: Loop, b: nat, k: nat)
    requires b < |f| && k <= |f[b].values| && b != l.latch
    ensures SharedValues(f, l, Telling(b, |f[b].values|), b, k, Shared(0, 0)) == Shared(0, 0)
    ensures SplitValues(f, l, Telling(b, |f[b].values|), b, k, Split(0, 1, 0)) == Split(0, 1, 0)
  {
    if k > 0 {
      TellsNothing(f, l, b, k - 1);
    }
  }

  /** A block reads the carry rightly from all states that are as they should be exactly when it reads it only in the
      latch, after it is written. */
  lemma CarryLocalIff(f: seq<Block>, l: Loop, b: nat)
    requires Accepted(f, l, false) && OneCarry(f, l) && b < |f|
    ensures BlockAgrees(f, l, b) <==> CarryLocal(f, l, b)
  {
    if CarryLocal(f, l, b) {
      forall c: Code<int>, x: Split<int>, y: Shared<int> | Same(l, b, 0, x, y)
        ensures AgreesOn(f, l, c, b, x, y)
      {
        LocalAgrees(f, l, c, b, x, y);
      }
    } else {
      var n := |f[b].values|;
      var x, y := Split(0, 1, 0), Shared(0, 0);
      if k: nat :| k < n && ReadsCarry(f, l, b, k) && !Written(l, b, k) {
        TellsAfter(f, l, b, k, n);
        assert !AgreesOn(f, l, Telling(b, k), b, x, y);
      } else {
        TellsNothing(f, l, b, n);
        TellsAtEnd(f, l, b);
        assert !AgreesOn(f, l, Telling(b, n), b, x, y);
      }
    }
  }

  lemma TellsAtEnd(f: seq<Block>, l: Loop, b: nat)
    requires Accepted(f, l, false) && OneCarry(f, l) && b < |f| && b != l.latch
    requires f[b].control == Some(l.v)
             || exists i :: 0 <= i < |f[b].succs| && (Carried(f, l, b, i) || Copied(f, l, b, i))
    requires SharedValues(f, l, Telling(b, |f[b].values|), b, |f[b].values|, Shared(0, 0)) == Shared(0, 0)
    requires SplitValues(f, l, Telling(b, |f[b].values|), b, |f[b].values|, Split(0, 1, 0)) == Split(0, 1, 0)
    ensures !AgreesOn(f, l, Telling(b, |f[b].values|), b, Split(0, 1, 0), Shared(0, 0))
  {
    var c := Telling(b, |f[b].values|);
    var x, y := Split(0, 1, 0), Shared(0, 0);
    if f[b].control == Some(l.v) {
      assert SplitNext(f, l, c, b, x) == 1 && SharedNext(f, l, c, b, y) == 0;
    } else {
      var i :| 0 <= i < |f[b].succs| && (Carried(f, l, b, i) || Copied(f, l, b, i));
      assert !Same(l, f[b].succs[i].block, 0, SplitEdge(f, l, c, b, i, x), SharedEdge(f, l, c, b, i, y));
    }
  }

  /** Over every run, if the carry is read only there, sharing the register changes nothing: same blocks, same state. */
  lemma {:induction false} SharingIsSafe<S>(f: seq<Block>, l: Loop, c: Code<S>, b: nat, x: Split<S>, y: Shared<S>,
                                            k: nat)
    requires Accepted(f, l, false) && OneCarry(f, l) && (forall b' :: 0 <= b' < |f| ==> CarryLocal(f, l, b'))
    requires Same(l, b, 0, x, y)
    ensures SharedRun(f, l, c, b, y, k).0 == SplitRun(f, l, c, b, x, k).0
    ensures SharedRun(f, l, c, b, y, k).1.s == SplitRun(f, l, c, b, x, k).1.s
    decreases k
  {
    if k > 0 && b < |f| {
      var n := |f[b].values|;
      LocalAgrees(f, l, c, b, x, y);
      var x', y' := SplitValues(f, l, c, b, n, x), SharedValues(f, l, c, b, n, y);
      var i := SplitNext(f, l, c, b, x');
      if i < |f[b].succs| {
        SharingIsSafe(f, l, c, f[b].succs[i].block, SplitEdge(f, l, c, b, i, x'), SharedEdge(f, l, c, b, i, y'), k - 1);
      }
    }
  }

  // ----- carries read after the loop -----

  /** A one-block loop whose exit block computes something and then reads the carry, and that is accepted. */
  const ExitReader: seq<Block> := [
    Block([], None, [], [Edge(1, 0)]),
    Block([Value(0, true, [9, 1]), Value(1, false, [0])], None, [0, 1], [Edge(1, 1), Edge(2, 0)]),
    Block([Value(2, false, []), Value(3, false, [1])], None, [1], [])
  ]

  const ExitReaderLoop: Loop := Loop({1}, 1, 1, 0, 1, 1)

  /** Sets the carry to 7, leaves the loop, overwrites the register with 9, and keeps what the reader sees. */
  ghost function ExitCode(): Code<int> {
    Code((b, n, p, v: Option<int>, s) => if v.Some? then v.value else s,
         (p, s) => 7, (b, i, v, s) => s, (b, i, s) => 3, (b, p, v, s) => if b == 1 then 1 else 0, (b, r, s) => 9)
  }

  lemma ExitReaderAccepted()
    ensures Accepted(ExitReader, ExitReaderLoop, false) && OneCarry(ExitReader, ExitReaderLoop)
    ensures !CarryLocal(ExitReader, ExitReaderLoop, 2)
  {
    var f, l := ExitReader, ExitReaderLoop;
    assert |f| == 3 && |f[0].values| == 0 && |f[1].values| == |f[2].values| == 2;
    assert f[1].values[1].id == 1 && f[1].values[1].args == [0];
    assert f[2].values[1].args == [1] && l.v in f[2].values[1].args;
    assert ReadsCarry(f, l, 2, 1);
    forall b, i | 0 <= b < |f| && 0 <= i < |f[b].values|
      ensures !ReadsLate(f, l.body, l.latch, l.vIdx, l.p, l.v, false, b, i)
    {
      assert 0 !in [9, 1] && 0 !in [1];
    }
  }

  /** The check accepts a loop whose exit block finds 9 where the carry was 7: nothing reserves the register there. */
  lemma CarryLostAfterLoop()
    ensures Accepted(ExitReader, ExitReaderLoop, false) && OneCarry(ExitReader, ExitReaderLoop)
    ensures SplitRun(ExitReader, ExitReaderLoop, ExitCode(), 0, Split(0, 0, 0), 3).1.s == 7
    ensures SharedRun(ExitReader, ExitReaderLoop, ExitCode(), 0, Shared(0, 0), 3).1.s == 9
  {
    ExitReaderAccepted();
    SplitExit();
    SharedExit();
  }

  lemma SplitExit()
    requires Accepted(ExitReader, ExitReaderLoop, false)
    ensures SplitRun(ExitReader, ExitReaderLoop, ExitCode(), 0, Split(0, 0, 0), 3).1.s == 7
  {
    var f, l, c := ExitReader, ExitReaderLoop, ExitCode();
    var t1 := SplitValues(f, l, c, 1, 2, Split(3, 0, 0));
    assert SplitValues(f, l, c, 1, 1, Split(3, 0, 0)) == Split(3, 0, 0) && t1 == Split(3, 7, 0);
    assert f[2].values[1].args == [1];
    assert SplitValues(f, l, c, 2, 1, t1) == t1 && SplitValues(f, l, c, 2, 2, t1) == Split(3, 7, 7);
    assert SplitRun(f, l, c, 2, t1, 1).1 == Split(3, 7, 7);
    assert SplitRun(f, l, c, 1, Split(3, 0, 0), 2).1 == Split(3, 7, 7);
    assert f[0].succs[0] == Edge(1, 0) && f[1].values == [Value(0, true, [9, 1]), Value(1, false, [0])];
    assert !Carried(f, l, 0, 0);
  }

  lemma SharedExit()
    requires Accepted(ExitReader, ExitReaderLoop, false)
    ensures SharedRun(ExitReader, ExitReaderLoop, ExitCode(), 0, Shared(0, 0), 3).1.s == 9
  {
    var f, l, c := ExitReader, ExitReaderLoop, ExitCode();
    var t1 := SharedValues(f, l, c, 1, 2, Shared(3, 0));
    assert SharedValues(f, l, c, 1, 1, Shared(3, 0)) == Shared(3, 0) && t1 == Shared(7, 0);
    assert f[2].values[1].args == [1];
    assert SharedValues(f, l, c, 2, 1, t1) == Shared(9, 0) && SharedValues(f, l, c, 2, 2, t1) == Shared(9, 9);
    assert SharedRun(f, l, c, 2, t1, 1).1 == Shared(9, 9);
    assert SharedRun(f, l, c, 1, Shared(3, 0), 2).1 == Shared(9, 9);
    assert f[0].succs[0] == Edge(1, 0) && f[1].values == [Value(0, true, [9, 1]), Value(1, false, [0])];
    assert !Carried(f, l, 0, 0);
  }

  // ----- the phi read after a loop left by the latch -----

  /** The same loop with an exit block that reads the phi, as live-out mode allows. */
  const PhiReader: seq<Block> := [
    Block([], None, [], [Edge(1, 0)]),
    Block([Value(0, true, [9, 1]), Value(1, false, [0])], None, [0, 1], [Edge(1, 1), Edge(2, 0)]),
    Block([Value(3, false, [0])], None, [1], [])
  ]

  /** Sets the carry to 7, leaves the loop, spares the register, and keeps what the reader sees. */
  ghost function PhiCode(): Code<int> {
    Code((b, n, p: Option<int>, v, s) => if p.Some? then p.value else s,
         (p, s) => 7, (b, i, v, s) => s, (b, i, s) => 3, (b, p, v, s) => if b == 1 then 1 else 0, (b, r, s) => r)
  }

  /** The check accepts it, and nothing else touches the register, but the exit block finds the carry, 7, where the
      phi was 3: the loop is left by the latch. */
  lemma PhiLostAfterLatch()
    ensures Accepted(PhiReader, ExitReaderLoop, true) && OneCarry(PhiReader, ExitReaderLoop) && Spares(PhiCode())
    ensures SplitRun(PhiReader, ExitReaderLoop, PhiCode(), 0, Split(0, 0, 0), 3).1.s == 3
    ensures SharedRun(PhiReader, ExitReaderLoop, PhiCode(), 0, Shared(0, 0), 3).1.s == 7
  {
    PhiReaderAccepted();
    SplitPhiExit();
    SharedPhiExit();
  }

  lemma PhiReaderAccepted()
    ensures Accepted(PhiReader, ExitReaderLoop, true) && OneCarry(PhiReader, ExitReaderLoop)
  {
    var f, l := PhiReader, ExitReaderLoop;
    assert |f| == 3 && |f[0].values| == 0 && |f[1].values| == 2 && |f[2].values| == 1;
    assert f[1].values[1].id == 1 && f[1].values[1].args == [0];
    forall b, i | 0 <= b < |f| && 0 <= i < |f[b].values|
      ensures !ReadsLate(f, l.body, l.latch, l.vIdx, l.p, l.v, true, b, i)
    {
      assert 0 !in [9, 1];
    }
  }

  lemma SplitPhiExit()
    requires Accepted(PhiReader, ExitReaderLoop, true)
    ensures SplitRun(PhiReader, ExitReaderLoop, PhiCode(), 0, Split(0, 0, 0), 3).1.s == 3
  {
    var f, l, c := PhiReader, ExitReaderLoop, PhiCode();
    var t1 := SplitValues(f, l, c, 1, 2, Split(3, 0, 0));
    assert SplitValues(f, l, c, 1, 1, Split(3, 0, 0)) == Split(3, 0, 0) && t1 == Split(3, 7, 0);
    assert f[2].values[0].args == [0];
    assert SplitValues(f, l, c, 2, 0, t1) == t1 && SplitValues(f, l, c, 2, 1, t1) == Split(3, 7, 3);
    assert SplitRun(f, l, c, 2, t1, 1).1 == Split(3, 7, 3);
    assert SplitRun(f, l, c, 1, Split(3, 0, 0), 2).1 == Split(3, 7, 3);
    assert f[0].succs[0] == Edge(1, 0) && f[1].values == [Value(0, true, [9, 1]), Value(1, false, [0])];
    assert !Carried(f, l, 0, 0);
  }

  lemma SharedPhiExit()
    requires Accepted(PhiReader, ExitReaderLoop, true)
    ensures SharedRun(PhiReader, ExitReaderLoop, PhiCode(), 0, Shared(0, 0), 3).1.s == 7
  {
    var f, l, c := PhiReader, ExitReaderLoop, PhiCode();
    var t1 := SharedValues(f, l, c, 1, 2, Shared(3, 0));
    assert SharedValues(f, l, c, 1, 1, Shared(3, 0)) == Shared(3, 0) && t1 == Shared(7, 0);
    assert f[2].values[0].args == [0];
    assert SharedValues(f, l, c, 2, 0, t1) == t1 && SharedValues(f, l, c, 2, 1, t1) == Shared(7, 7);
    assert SharedRun(f, l, c, 2, t1, 1).1 == Shared(7, 7);
    assert SharedRun(f, l, c, 1, Shared(3, 0), 2).1 == Shared(7, 7);
    assert f[0].succs[0] == Edge(1, 0) && f[1].values == [Value(0, true, [9, 1]), Value(1, false, [0])];
    assert !Carried(f, l, 0, 0);
  }
}
