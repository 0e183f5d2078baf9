/** Moving some statements ahead of others. */
module Reorder {
  import opened Basics

  /** A statement by what it may read and write. */
  datatype Stmt<Var(==)> = Stmt(id: nat, uses: set<Var>, defines: Option<Var>, readsMem: bool, writesMem: bool)

  /** Variables and memory. */
  datatype State<!Var, M> = State(env: imap<Var, int>, mem: M)

  ghost predicate Total<Var(!new), M>(st: State<Var, M>) {
    forall x: Var :: x in st.env
  }

  /** What statements compute, from the variables they use and, if they read it, memory. */
  datatype Sem<!Var, !M> = Sem(
    value: (nat, map<Var, int>, Option<M>) -> int,
    store: (nat, map<Var, int>, M) -> M
  )

  ghost function Used<Var(!new), M>(s: Stmt<Var>, st: State<Var, M>): map<Var, int>
    requires Total(st)
  {
    map x | x in s.uses :: st.env[x]
  }

  ghost function Exec<Var(!new), M>(sem: Sem<Var, M>, s: Stmt<Var>, st: State<Var, M>): (r: State<Var, M>)
    requires Total(st)
    ensures Total(r)
  {
    var used := Used(s, st);
    var seen := if s.readsMem then Some(st.mem) else None;
    State(if s.defines.Some? then st.env[s.defines.value := sem.value(s.id, used, seen)] else st.env,
          if s.writesMem then sem.store(s.id, used, st.mem) else st.mem)
  }

  ghost function ExecAll<Var(!new), M>(sem: Sem<Var, M>, ss: seq<Stmt<Var>>, st: State<Var, M>): (r: State<Var, M>)
    requires Total(st)
    ensures Total(r)
  {
    if ss == [] then st else ExecAll(sem, ss[1..], Exec(sem, ss[0], st))
  }

  /** Neither statement touches what the other writes. */
  predicate Independent<Var(==)>(a: Stmt<Var>, b: Stmt<Var>) {
    && (a.defines.Some? ==> a.defines.value !in b.uses)
    && (b.defines.Some? ==> b.defines.value !in a.uses)
    && (a.defines.Some? && b.defines.Some? ==> a.defines != b.defines)
    && (a.writesMem ==> !b.readsMem && !b.writesMem)
    && (b.writesMem ==> !a.readsMem)
  }

  lemma UsedSame<Var(!new), M>(s: Stmt<Var>, a: State<Var, M>, b: State<Var, M>)
    requires Total(a) && Total(b) && forall x :: x in s.uses ==> a.env[x] == b.env[x]
    ensures Used(s, a) == Used(s, b)
  {
  }

  lemma Swap<Var(!new), M>(sem: Sem<Var, M>, a: Stmt<Var>, b: Stmt<Var>, st: State<Var, M>)
    requires Total(st) && Independent(a, b)
    ensures Exec(sem, b, Exec(sem, a, st)) == Exec(sem, a, Exec(sem, b, st))
  {
    UsedSame(b, st, Exec(sem, a, st));
    UsedSame(a, st, Exec(sem, b, st));
    var ab, ba := Exec(sem, b, Exec(sem, a, st)), Exec(sem, a, Exec(sem, b, st));
    forall x: Var
      ensures ab.env[x] == ba.env[x]
    {
    }
    assert ab.env == ba.env;
  }

  // ----- moving the early ones ahead -----

  datatype Item<Var(==)> = Item(early: bool, s: Stmt<Var>)

  function Pick<Var>(items: seq<Item<Var>>, early: bool): seq<Stmt<Var>> {
    if items == [] then []
    else (if items[0].early == early then [items[0].s] else []) + Pick(items[1..], early)
  }

  function All<Var>(items: seq<Item<Var>>): seq<Stmt<Var>> {
    if items == [] then [] else [items[0].s] + All(items[1..])
  }

  /** Every early statement is independent of the late ones it overtakes. */
  ghost predicate MayOvertake<Var>(items: seq<Item<Var>>) {
    forall i, j :: 0 <= i < j < |items| && !items[i].early && items[j].early ==> Independent(items[i].s, items[j].s)
  }

  lemma {:induction false} ExecConcat<Var(!new), M>(sem: Sem<Var, M>, a: seq<Stmt<Var>>, b: seq<Stmt<Var>>,
                                                    st: State<Var, M>)
    requires Total(st)
    ensures ExecAll(sem, a + b, st) == ExecAll(sem, b, ExecAll(sem, a, st))
  {
    if a == [] {
      assert a + b == b;
    } else {
      assert (a + b)[1..] == a[1..] + b;
      ExecConcat(sem, a[1..], b, Exec(sem, a[0], st));
    }
  }

  lemma {:induction false} Across<Var(!new), M>(sem: Sem<Var, M>, a: Stmt<Var>, bs: seq<Stmt<Var>>, st: State<Var, M>)
    requires Total(st) && forall j :: 0 <= j < |bs| ==> Independent(a, bs[j])
    ensures ExecAll(sem, bs, Exec(sem, a, st)) == Exec(sem, a, ExecAll(sem, bs, st))
  {
    if bs != [] {
      Swap(sem, a, bs[0], st);
      Across(sem, a, bs[1..], Exec(sem, bs[0], st));
    }
  }

  lemma {:induction false} PickedFrom<Var>(items: seq<Item<Var>>, early: bool)
    ensures forall s ::
              s in Pick(items, early) ==> exists j :: 0 <= j < |items| && items[j].early == early && items[j].s == s
  {
    if items != [] {
      PickedFrom(items[1..], early);
      forall s | s in Pick(items, early)
        ensures exists j :: 0 <= j < |items| && items[j].early == early && items[j].s == s
      {
        if s in Pick(items[1..], early) {
          var j :| 0 <= j < |items[1..]| && items[1..][j].early == early && items[1..][j].s == s;
          assert items[j + 1] == items[1..][j];
        } else {
          assert items[0].s == s;
        }
      }
    }
  }

  /** A statement may wait for the early ones after it. */
  lemma Waits<Var(!new), M>(sem: Sem<Var, M>, s: Stmt<Var>, early: seq<Stmt<Var>>, late: seq<Stmt<Var>>,
                            st: State<Var, M>)
    requires Total(st) && forall j :: 0 <= j < |early| ==> Independent(s, early[j])
    ensures ExecAll(sem, early + ([s] + late), st) == ExecAll(sem, early + late, Exec(sem, s, st))
  {
    ExecConcat(sem, early, [s] + late, st);
    ExecConcat(sem, early, late, Exec(sem, s, st));
    Across(sem, s, early, st);
    ExecCons(sem, s, late, ExecAll(sem, early, st));
  }

  lemma ExecCons<Var(!new), M>(sem: Sem<Var, M>, s: Stmt<Var>, ss: seq<Stmt<Var>>, st: State<Var, M>)
    requires Total(st)
    ensures ExecAll(sem, [s] + ss, st) == ExecAll(sem, ss, Exec(sem, s, st))
  {
    assert ([s] + ss)[1..] == ss;
  }

  lemma OvertakenFirst<Var>(items: seq<Item<Var>>)
    requires MayOvertake(items) && items != [] && !items[0].early
    ensures forall j :: 0 <= j < |Pick(items[1..], true)| ==> Independent(items[0].s, Pick(items[1..], true)[j])
  {
    var rest := items[1..];
    var early := Pick(rest, true);
    PickedFrom(rest, true);
    forall j | 0 <= j < |early|
      ensures Independent(items[0].s, early[j])
    {
      assert early[j] in early;
      var i :| 0 <= i < |rest| && rest[i].early && rest[i].s == early[j];
      assert rest[i] == items[i + 1];
    }
  }

  /** Running the early statements first leaves every variable and all memory as in the
      original order. */
  lemma {:induction false} EarlyFirst<Var(!new), M>(sem: Sem<Var, M>, items: seq<Item<Var>>, st: State<Var, M>)
    requires Total(st) && MayOvertake(items)
    ensures ExecAll(sem, Pick(items, true) + Pick(items, false), st) == ExecAll(sem, All(items), st)
  {
    if items != [] {
      var s, rest := items[0].s, items[1..];
      var early, late := Pick(rest, true), Pick(rest, false);
      EarlyFirst(sem, rest, Exec(sem, s, st));
      ExecCons(sem, s, All(rest), st);
      if items[0].early {
        ExecCons(sem, s, early + late, st);
        assert Pick(items, true) + Pick(items, false) == [s] + (early + late);
      } else {
        OvertakenFirst(items);
        Waits(sem, s, early, late, st);
        assert Pick(items, true) + Pick(items, false) == early + ([s] + late);
      }
    }
  }

  // ----- values nobody reads any more -----

  /** The states differ at most in `dead` variables. */
  ghost predicate AgreeOff<Var(!new), M>(a: State<Var, M>, b: State<Var, M>, dead: set<Var>) {
    Total(a) && Total(b) && a.mem == b.mem && forall x: Var :: x !in dead ==> a.env[x] == b.env[x]
  }

  lemma {:induction false} AgreementStays<Var(!new), M>(sem: Sem<Var, M>, ss: seq<Stmt<Var>>, a: State<Var, M>,
                                                        b: State<Var, M>, dead: set<Var>)
    requires AgreeOff(a, b, dead) && forall j :: 0 <= j < |ss| ==> ss[j].uses !! dead
    ensures AgreeOff(ExecAll(sem, ss, a), ExecAll(sem, ss, b), dead)
  {
    if ss != [] {
      UsedSame(ss[0], a, b);
      AgreementStays(sem, ss[1..], Exec(sem, ss[0], a), Exec(sem, ss[0], b), dead);
    }
  }
}
