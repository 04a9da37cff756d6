/** What the planned operations do to a real system, and what the plan promises. */
module RenameReplay {
  import opened Options
  import opened RenamePlan

  /** The real system, by interface name. */
  datatype NicState = NicState(mac: string, up: bool)
  type System = map<string, NicState>

  /** One operation, `None` when it would fail: the name must exist, a new name
      must be free and, when `strict`, a renamed NIC must be down. */
  ghost function Apply(op: Op, sys: System, strict: bool): Option<System> {
    match op
    case Down(n) => if n in sys then Some(sys[n := sys[n].(up := false)]) else None
    case Up(n) => if n in sys then Some(sys[n := sys[n].(up := true)]) else None
    case Rename(a, b) =>
      if a in sys && b !in sys && (strict ==> !sys[a].up) then Some((sys - {a})[b := sys[a]]) else None
  }

  ghost function Replay(ops: seq<Op>, sys: System, strict: bool): Option<System> {
    if ops == [] then Some(sys)
    else
      match Replay(ops[..|ops| - 1], sys, strict)
      case None => None
      case Some(mid) => Apply(ops[|ops| - 1], mid, strict)
  }

  /** Runs operations the way the planner does: one that fails is only logged. */
  ghost function RunAll(ops: seq<Op>, sys: System): System {
    if ops == [] then sys
    else
      var mid := RunAll(ops[..|ops| - 1], sys);
      match Apply(ops[|ops| - 1], mid, false)
      case None => mid
      case Some(after) => after
  }

  ghost function SystemOf(t: Table): System
    requires Injective(t)
  {
    map n | n in Names(t) :: NicState(Holder(t, n), t[Holder(t, n)].up)
  }

  /** The real system carries exactly the names of the table, on the same NICs. */
  ghost predicate Matches(sys: System, t: Table) {
    && (forall m :: m in t ==> t[m].name in sys && sys[t[m].name].mac == m)
    && (forall n :: n in sys ==> sys[n].mac in t && t[sys[n].mac].name == n)
  }

  lemma ReplayMore(ops: seq<Op>, op: Op, sys: System, strict: bool)
    requires Replay(ops, sys, strict).Some?
    ensures Replay(ops + [op], sys, strict) == Apply(op, Replay(ops, sys, strict).value, strict)
  {
    assert (ops + [op])[..|ops|] == ops;
  }

  lemma ReplayAddDown(ops: seq<Op>, up: bool, n: string, sys: System, strict: bool)
    requires Replay(ops, sys, strict).Some?
    requires n in Replay(ops, sys, strict).value
    ensures var mid := Replay(ops, sys, strict).value;
            Replay(AddDown(ops, up, n), sys, strict)
            == Some(if up then mid[n := mid[n].(up := false)] else mid)
  {
    if up {
      ReplayMore(ops, Down(n), sys, strict);
    }
  }

  ghost predicate Lowered(sys: System, t: Table)
    requires Matches(sys, t)
  {
    forall m :: m in t && sys[t[m].name].up ==> t[m].up
  }

  /** Between two states of the planner: NICs that keep their name are not
      touched, and (when only down NICs are renamed) the others end up down. */
  ghost predicate Moved(sys: System, t: Table, sys': System, t': Table, strict: bool)
    requires Matches(sys, t) && Matches(sys', t')
  {
    && t'.Keys == t.Keys
    && (forall m :: m in t && t'[m].name == t[m].name ==> sys'[t[m].name] == sys[t[m].name])
    && (strict ==> forall m :: m in t && t'[m].name != t[m].name ==> !sys'[t'[m].name].up)
  }

  lemma MatchesNames(sys: System, t: Table)
    requires Matches(sys, t)
    ensures Injective(t) && Names(t) == sys.Keys
  {
    forall n | n in sys ensures n in Names(t) {
      assert t[sys[n].mac].name == n;
    }
  }

  /** Replaying `ops` reaches `sys`, which carries exactly the names in `t`. */
  ghost predicate Reaches(sys0: System, ops: seq<Op>, strict: bool, sys: System, t: Table) {
    Replay(ops, sys0, strict) == Some(sys) && Matches(sys, t)
  }

  /** Moving `h` out of the way and then `m` into its place. */
  lemma MovedTwice(sys: System, t: Table, mid: System, sys': System, h: string, m: string, tmp: string, strict: bool)
    requires h in t && m in t && h != m && tmp != t[h].name && t[m].name != t[h].name
    requires Matches(sys, t)
    requires var t1 := t[h := t[h].(name := tmp)];
             Matches(mid, t1) && Moved(sys, t, mid, t1, strict)
    requires var t1 := t[h := t[h].(name := tmp)];
             var t2 := t1[m := t1[m].(name := t[h].name)];
             Matches(sys', t2) && Moved(mid, t1, sys', t2, strict)
    ensures var t2 := t[h := t[h].(name := tmp)][m := t[m].(name := t[h].name)];
            Moved(sys, t, sys', t2, strict)
  {
  }

  ghost function DownRename(sys: System, a: string, b: string, up: bool): System
    requires a in sys
  {
    (sys - {a})[b := if up then sys[a].(up := false) else sys[a]]
  }

  lemma DownRenameMatches(sys: System, t: Table, m: string, n: string, up: bool, strict: bool)
    requires Matches(sys, t) && m in t && n !in sys
    requires strict ==> up || !sys[t[m].name].up
    ensures var sys', t' := DownRename(sys, t[m].name, n, up), t[m := t[m].(name := n)];
            Matches(sys', t') && Moved(sys, t, sys', t', strict)
  {
    var a := t[m].name;
    var sys' := DownRename(sys, a, n, up);
    var t' := t[m := t[m].(name := n)];
    forall x | x in t' ensures t'[x].name in sys' && sys'[t'[x].name].mac == x {
      assert x != m ==> t[x].name != a;
    }
    forall y | y in sys' ensures sys'[y].mac in t' && t'[sys'[y].mac].name == y {
      assert y != n ==> y in sys && y != a;
    }
  }

  lemma DownRenameReplays(ops: seq<Op>, sys0: System, strict: bool, a: string, n: string, up: bool)
    requires Replay(ops, sys0, strict).Some?
    requires var sys := Replay(ops, sys0, strict).value; a in sys && n !in sys && (strict ==> up || !sys[a].up)
    ensures Replay(AddDown(ops, up, a) + [Rename(a, n)], sys0, strict)
            == Some(DownRename(Replay(ops, sys0, strict).value, a, n, up))
  {
    hide Replay, AddDown;
    var sys := Replay(ops, sys0, strict).value;
    ReplayAddDown(ops, up, a, sys0, strict);
    ReplayMore(AddDown(ops, up, a), Rename(a, n), sys0, strict);
    var mid := if up then sys[a := sys[a].(up := false)] else sys;
    assert mid - {a} == sys - {a};
  }

  /** Taking one NIC down, if it is up, and renaming it to a free name. */
  lemma DownThenRename(ops: seq<Op>, sys0: System, strict: bool, sys: System, t: Table, m: string, n: string, up: bool)
    returns (sys': System)
    requires Reaches(sys0, ops, strict, sys, t)
    requires m in t && n !in sys
    requires strict ==> up || !sys[t[m].name].up
    ensures var t' := t[m := t[m].(name := n)];
            && Reaches(sys0, AddDown(ops, up, t[m].name) + [Rename(t[m].name, n)], strict, sys', t')
            && Moved(sys, t, sys', t', strict)
            && sys'.Keys == sys.Keys - {t[m].name} + {n}
  {
    DownRenameReplays(ops, sys0, strict, t[m].name, n, up);
    DownRenameMatches(sys, t, m, n, up, strict);
    sys' := DownRename(sys, t[m].name, n, up);
  }

  lemma TakeReplays(p: Plan, r: Request, curOps: seq<Op>, sys0: System, strict: bool, sys: System)
    returns (sys': System)
    requires Reaches(sys0, p.ops + curOps, strict, sys, p.table)
    requires r.mac in p.table && r.name !in sys
    requires strict ==> !sys[p.table[r.mac].name].up
    ensures var q := Take(p, r, curOps);
            Reaches(sys0, q.ops, strict, sys', q.table) && Moved(sys, p.table, sys', q.table, strict)
  {
    sys' := DownThenRename(p.ops + curOps, sys0, strict, sys, p.table, r.mac, r.name, false);
    assert p.ops + curOps + [Rename(p.table[r.mac].name, r.name)] == Take(p, r, curOps).ops;
  }

  /** Adds the operations that move the holder `h` of the requested name aside. */
  ghost function AsideOps(p: Plan, h: string, i: nat, curOps: seq<Op>): seq<Op>
    requires h in p.table
  {
    AddDown(curOps, p.table[h].up, p.table[h].name) + [Rename(p.table[h].name, Temp(i))]
  }

  lemma AsideReplays(p: Plan, h: string, i: nat, curOps: seq<Op>, sys0: System, strict: bool, sys: System)
    returns (sys': System)
    requires Reaches(sys0, p.ops + curOps, strict, sys, p.table)
    requires h in p.table && Temp(i) !in sys
    requires strict ==> Lowered(sys, p.table)
    ensures var p' := Aside(p, h, i);
            && Reaches(sys0, p'.ops + AsideOps(p, h, i, curOps), strict, sys', p'.table)
            && Moved(sys, p.table, sys', p'.table, strict)
            && sys'.Keys == sys.Keys - {p.table[h].name} + {Temp(i)}
  {
    var nic := p.table[h];
    sys' := DownThenRename(p.ops + curOps, sys0, strict, sys, p.table, h, Temp(i), nic.up);
    assert AddDown(p.ops + curOps, nic.up, nic.name) + [Rename(nic.name, Temp(i))]
        == p.ops + AsideOps(p, h, i, curOps);
  }

  lemma MakeRoomDisplaces(p: Plan, r: Request, curOps: seq<Op>) returns (h: string, i: nat)
    requires p.tmpi >= -1 && r.mac in p.table && p.table[r.mac].name != r.name
    requires r.name in Names(p.table) && Vacant(p, r.name)
    ensures h in p.table && h != r.mac && p.table[h].name == r.name && i > p.tmpi && Temp(i) !in Names(p.table)
    ensures MakeRoom(p, r, curOps) == Take(Aside(p, h, i), r, AsideOps(p, h, i, curOps))
  {
    h := Holder(p.table, r.name);
    i := FirstFree(Names(p.table), p.tmpi + 1);
    FirstFreeIsLeast(Names(p.table), p.tmpi + 1);
  }

  lemma DisplaceReplays(p: Plan, r: Request, curOps: seq<Op>, sys0: System, strict: bool, sys: System)
    returns (sys': System)
    requires p.tmpi >= -1 && r.mac in p.table && p.table[r.mac].name != r.name
    requires Reaches(sys0, p.ops + curOps, strict, sys, p.table)
    requires strict ==> Lowered(sys, p.table) && !sys[p.table[r.mac].name].up
    requires r.name in Names(p.table) && Vacant(p, r.name)
    ensures var q := MakeRoom(p, r, curOps);
            Reaches(sys0, q.ops, strict, sys', q.table) && Moved(sys, p.table, sys', q.table, strict)
  {
    MatchesNames(sys, p.table);
    var h, i := MakeRoomDisplaces(p, r, curOps);
    var p1 := Aside(p, h, i);
    var mid := AsideReplays(p, h, i, curOps, sys0, strict, sys);
    sys' := TakeReplays(p1, r, AsideOps(p, h, i, curOps), sys0, strict, mid);
    MovedTwice(sys, p.table, mid, sys', h, r.mac, Temp(i), strict);
  }

  ghost function Lower(sys: System, nic: NicInfo): System
    requires nic.name in sys
  {
    if nic.up then sys[nic.name := sys[nic.name].(up := false)] else sys
  }

  lemma LowerMatches(sys: System, t: Table, m: string)
    requires Matches(sys, t) && m in t
    ensures var t', sys' := t[m := t[m].(up := false)], Lower(sys, t[m]);
            && Matches(sys, t') && Matches(sys', t')
            && (forall x :: x in t && x != m ==> sys'[t[x].name] == sys[t[x].name])
  {
    var t', sys' := t[m := t[m].(up := false)], Lower(sys, t[m]);
    assert forall x :: x in t ==> t'[x].name == t[x].name;
    assert forall x :: x in t && x != m ==> t[x].name != t[m].name;
  }

  lemma LowerLowers(sys: System, t: Table, m: string)
    requires Matches(sys, t) && m in t && Lowered(sys, t)
    requires Matches(Lower(sys, t[m]), t[m := t[m].(up := false)])
    ensures var t', sys' := t[m := t[m].(up := false)], Lower(sys, t[m]);
            Lowered(sys', t') && !sys'[t[m].name].up
  {
  }

  lemma TakenDownReplays(p: Plan, r: Request, sys0: System, strict: bool, sys: System) returns (sys': System)
    requires Reaches(sys0, p.ops, strict, sys, p.table)
    requires r.mac in p.table && (strict ==> Lowered(sys, p.table))
    ensures var p', nic := TakenDown(p, r), p.table[r.mac];
            && Matches(sys, p'.table)
            && Reaches(sys0, p.ops + AddDown([], nic.up, nic.name), strict, sys', p'.table)
            && (strict ==> Lowered(sys', p'.table) && !sys'[nic.name].up)
            && (forall m :: m in p.table && m != r.mac ==> sys'[p.table[m].name] == sys[p.table[m].name])
  {
    hide Replay, Matches, Lowered;
    var nic := p.table[r.mac];
    MatchesHas(sys, p.table, r.mac);
    LowerMatches(sys, p.table, r.mac);
    if strict {
      LowerLowers(sys, p.table, r.mac);
    }
    ReplayAddDown(p.ops, nic.up, nic.name, sys0, strict);
    assert p.ops + AddDown([], nic.up, nic.name) == AddDown(p.ops, nic.up, nic.name);
    sys' := Lower(sys, nic);
  }

  lemma MatchesHas(sys: System, t: Table, m: string)
    requires Matches(sys, t) && m in t
    ensures t[m].name in sys
  {
  }

  /** Whether handling the request records no error. */
  ghost predicate Clean(p: Plan, r: Request) {
    && r.mac in p.table
    && (p.table[r.mac].name == r.name
        || (p.table[r.mac].name != "" && Movable(p.table[r.mac]) && Vacant(TakenDown(p, r), r.name)))
  }

  lemma StepErrors(p: Plan, r: Request)
    requires p.tmpi >= -1
    ensures Clean(p, r) ==> Step(p, r).errors == p.errors
    ensures !Clean(p, r) ==> |Step(p, r).errors| == |p.errors| + 1 && Step(p, r).ops == p.ops
                             && (Step(p, r).table == p.table || (r.mac in p.table && Step(p, r).table == TakenDown(p, r).table))
  {
  }

  lemma MakeRoomReplays(p: Plan, r: Request, curOps: seq<Op>, sys0: System, strict: bool, sys: System)
    returns (sys': System)
    requires p.tmpi >= -1 && r.mac in p.table && p.table[r.mac].name != r.name
    requires Reaches(sys0, p.ops + curOps, strict, sys, p.table)
    requires strict ==> Lowered(sys, p.table) && !sys[p.table[r.mac].name].up
    requires Vacant(p, r.name)
    ensures var q := MakeRoom(p, r, curOps);
            Reaches(sys0, q.ops, strict, sys', q.table) && Moved(sys, p.table, sys', q.table, strict)
  {
    MatchesNames(sys, p.table);
    if r.name in sys {
      sys' := DisplaceReplays(p, r, curOps, sys0, strict, sys);
    } else {
      sys' := TakeReplays(p, r, curOps, sys0, strict, sys);
    }
  }

  lemma MovedAfterDown(sys: System, t: Table, mid: System, m: string, sys': System, t': Table, strict: bool)
    requires m in t && Matches(sys, t) && Matches(sys', t') && t'.Keys == t.Keys
    requires var t1 := t[m := t[m].(up := false)]; Matches(mid, t1) && Moved(mid, t1, sys', t', strict)
    requires forall a :: a in t && a != m ==> mid[t[a].name] == sys[t[a].name]
    requires t'[m].name != t[m].name
    ensures Moved(sys, t, sys', t', strict)
  {
    assert forall a :: a in t ==> t[m := t[m].(up := false)][a].name == t[a].name;
  }

  /** The simulation step: whatever the request, the operations planned so far
      still replay without a failure, onto exactly the names in the table. */
  lemma StepReplays(p: Plan, r: Request, sys0: System, strict: bool, sys: System) returns (sys': System)
    requires p.tmpi >= -1 && Reaches(sys0, p.ops, strict, sys, p.table)
    requires strict ==> Lowered(sys, p.table)
    ensures var q := Step(p, r);
            && Reaches(sys0, q.ops, strict, sys', q.table)
            && (q.errors == p.errors ==> Moved(sys, p.table, sys', q.table, strict))
  {
    StepErrors(p, r);
    sys' := sys;
    if r.mac in p.table {
      var mid := TakenDownReplays(p, r, sys0, strict, sys);
      if Clean(p, r) && p.table[r.mac].name != r.name {
        sys' := MakeRoomReplays(TakenDown(p, r), r, AddDown([], p.table[r.mac].up, p.table[r.mac].name), sys0, strict, mid);
        StepTakes(p, r);
        MovedAfterDown(sys, p.table, mid, r.mac, sys', Step(p, r).table, strict);
      }
    }
  }

  lemma StepTakes(p: Plan, r: Request)
    requires p.tmpi >= -1 && Clean(p, r)
    ensures r.mac in Step(p, r).table && Step(p, r).table[r.mac].name == r.name
  {
  }

  lemma SystemOfMatches(t: Table)
    requires Injective(t)
    ensures Matches(SystemOf(t), t) && Lowered(SystemOf(t), t)
    ensures forall m :: m in t ==> SystemOf(t)[t[m].name] == NicState(m, t[m].up)
  {
    forall m | m in t ensures t[m].name in Names(t) && Holder(t, t[m].name) == m {}
  }

  /** For any injective table and any requests at all: the planned operations
      replay without a single failure (each rename moves an existing name to a
      free one), and leave every NIC under exactly the name the planner holds. */
  lemma {:induction false} PlanReplays(t: Table, rs: seq<Request>) returns (sys: System)
    requires Injective(t)
    ensures Reaches(SystemOf(t), PlanAll(t, rs).ops, false, sys, PlanAll(t, rs).table)
    ensures Injective(PlanAll(t, rs).table) && PlanAll(t, rs).table.Keys == t.Keys
  {
    if rs == [] {
      SystemOfMatches(t);
      sys := SystemOf(t);
    } else {
      var p := PlanAll(t, rs[..|rs| - 1]);
      var before := PlanReplays(t, rs[..|rs| - 1]);
      sys := StepReplays(p, rs[|rs| - 1], SystemOf(t), false, before);
      StepKeepsKeys(p, rs[|rs| - 1]);
    }
    MatchesNames(sys, PlanAll(t, rs).table);
  }

  lemma StepKeepsKeys(p: Plan, r: Request)
    requires p.tmpi >= -1
    ensures Step(p, r).table.Keys == p.table.Keys
    ensures forall m :: m in p.table ==> Step(p, r).table[m].downable == p.table[m].downable
  {
  }
}
