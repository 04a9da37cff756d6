/** When renaming succeeds, and what it then achieves. */
module RenameGoal {
  import opened RenamePlan
  import opened RenameReplay

  /** Every requested mac and every requested name occurs once. */
  ghost predicate Distinct(rs: seq<Request>) {
    forall i, j :: 0 <= i < j < |rs| ==> rs[i].mac != rs[j].mac && rs[i].name != rs[j].name
  }

  ghost predicate IsTemp(name: string, last: int) {
    exists i: nat :: i <= last && name == Temp(i)
  }

  ghost predicate NoTemps(rs: seq<Request>) {
    forall r, i: nat :: r in rs ==> r.name != Temp(i)
  }

  ghost predicate Named(t: Table) {
    forall m :: m in t ==> t[m].name != ""
  }

  ghost predicate Listed(rs: seq<Request>, mac: string) {
    exists r :: r in rs && r.mac == mac
  }

  ghost predicate Wanted(rs: seq<Request>, name: string) {
    exists r :: r in rs && r.name == name
  }

  /** What a caller can check of one request before anything is planned: the NIC
      exists and, unless it has the name already, neither it nor the present
      holder of the name is up with an address in use. */
  ghost predicate Feasible(t: Table, r: Request) {
    && r.mac in t
    && (t[r.mac].name == r.name
        || (Movable(t[r.mac]) && forall m :: m in t && t[m].name == r.name ==> Movable(t[m])))
  }

  /** Where the requests `rs` leave one NIC: a listed one has its new name, one
      whose name was wanted has a temporary name, any other kept its name. */
  ghost predicate PlacedNic(t: Table, rs: seq<Request>, p: Plan, m: string)
    requires m in t && m in p.table
  {
    var was, is_ := t[m], p.table[m];
    && (!Listed(rs, m) ==>
          && (if Wanted(rs, was.name) then IsTemp(is_.name, p.tmpi) else is_.name == was.name)
          && is_.up == was.up && is_.downable == was.downable)
    && (is_.name == was.name ==> is_.up == was.up)
  }

  ghost predicate Placed(t: Table, rs: seq<Request>, p: Plan) {
    && p.table.Keys == t.Keys
    && (forall r :: r in rs ==> r.mac in t && p.table[r.mac].name == r.name)
    && (forall m :: m in t ==> PlacedNic(t, rs, p, m))
  }

  /** The NICs to bring up again: those that were up and changed their name. */
  ghost predicate Raised(t: Table, p: Plan, m: string)
    requires m in t && m in p.table
  {
    t[m].up && p.table[m].name != t[m].name ==> Up(p.table[m].name) in p.ups
  }

  /** An `up` is for a name that no later request can hand to another NIC, and
      only ever names a NIC that was up at the start. */
  ghost predicate Justified(t: Table, rs: seq<Request>, p: Plan, op: Op)
    requires p.table.Keys == t.Keys
  {
    && op.Up? && (Wanted(rs, op.nic) || IsTemp(op.nic, p.tmpi))
    && (forall m :: m in t && p.table[m].name == op.nic ==> t[m].up)
  }

  ghost predicate UpsPlaced(t: Table, rs: seq<Request>, p: Plan)
    requires p.table.Keys == t.Keys
  {
    && (forall m :: m in t ==> Raised(t, p, m))
    && (forall op :: op in p.ups ==> Justified(t, rs, p, op))
  }

  /** Exactly the NICs that changed their name have been taken down. */
  ghost predicate OnlyMovedAreDown(t: Table, p: Plan, sys: System)
    requires p.table.Keys == t.Keys && Matches(sys, p.table)
  {
    forall m :: m in t ==> sys[p.table[m].name].up == (t[m].up && p.table[m].name == t[m].name)
  }

  /** A request that comes after `rs`, for a mac and a name not in `rs`. */
  ghost predicate Fresh(rs: seq<Request>, r: Request) {
    !Listed(rs, r.mac) && !Wanted(rs, r.name) && forall i: nat :: r.name != Temp(i)
  }

  lemma CleanIffFeasible(t: Table, rs: seq<Request>, p: Plan, r: Request)
    requires Placed(t, rs, p) && Injective(p.table) && Injective(t) && Named(t) && Fresh(rs, r)
    requires forall r' :: r' in rs ==> Feasible(t, r')
    ensures Clean(p, r) <==> Feasible(t, r)
  {
    if r.mac in t {
      assert t[r.mac].name == r.name <==> p.table[r.mac].name == r.name;
      assert p.table[r.mac].name != "";
      if p.table[r.mac].name != r.name {
        VacantIffMovable(t, rs, p, r);
      }
    }
  }

  lemma VacantIffMovable(t: Table, rs: seq<Request>, p: Plan, r: Request)
    requires Placed(t, rs, p) && Injective(p.table) && Injective(t) && Fresh(rs, r)
    requires forall r' :: r' in rs ==> Feasible(t, r')
    requires r.mac in t && p.table[r.mac].name != r.name
    ensures Vacant(TakenDown(p, r), r.name) <==> forall m :: m in t && t[m].name == r.name ==> Movable(t[m])
  {
    var t1 := TakenDown(p, r).table;
    forall m | m in t && t1[m].name == r.name
      ensures m != r.mac && !Listed(rs, m) && t[m].name == r.name && t1[m] == p.table[m]
    {
    }
    forall m | m in t && t[m].name == r.name
      ensures Listed(rs, m) ==> Movable(t[m])
      ensures !Listed(rs, m) ==> t1[m].name == r.name && Movable(t1[m]) == Movable(t[m]) && r.name in Names(t1)
    {
      if Listed(rs, m) {
        var r' :| r' in rs && r'.mac == m;
        assert Feasible(t, r');
      } else {
        assert p.table[m].name == r.name;
      }
    }
  }

  /** How a request that succeeds changes the plan: when `aside`, `h` moves to a
      temporary name; then the NIC itself, taken down, gets its new name. */
  ghost predicate Shape(p: Plan, r: Request, q: Plan, aside: bool, h: string, i: nat)
    requires r.mac in p.table
  {
    var nic := p.table[r.mac].(up := false, name := r.name);
    var ups := AddUp(p.ups, p.table[r.mac].up, r.name);
    if aside then
      && h in p.table && h != r.mac && p.table[h].name == r.name && i > p.tmpi && Temp(i) !in Names(p.table)
      && q.table == p.table[h := p.table[h].(name := Temp(i))][r.mac := nic]
      && q.tmpi == i && q.ups == AddUp(ups, p.table[h].up, Temp(i))
    else
      r.name !in Names(p.table) && q.table == p.table[r.mac := nic] && q.tmpi == p.tmpi && q.ups == ups
  }

  lemma TakenDownNames(p: Plan, r: Request)
    requires r.mac in p.table
    ensures Names(TakenDown(p, r).table) == Names(p.table)
  {
    var t1 := TakenDown(p, r).table;
    forall m | m in p.table ensures t1[m].name in Names(p.table) && p.table[m].name in Names(t1) {
      assert t1[m].name == p.table[m].name;
    }
  }

  lemma StepShape(p: Plan, r: Request) returns (aside: bool, h: string, i: nat)
    requires p.tmpi >= -1 && Clean(p, r) && p.table[r.mac].name != r.name
    ensures Shape(p, r, Step(p, r), aside, h, i)
  {
    var p1, curOps := TakenDown(p, r), AddDown([], p.table[r.mac].up, p.table[r.mac].name);
    TakenDownNames(p, r);
    assert Step(p, r) == MakeRoom(p1, r, curOps);
    aside, h, i := r.name in Names(p.table), r.mac, 0;
    if aside {
      h, i := MakeRoomDisplaces(p1, r, curOps);
    }
  }

  lemma FreshGrows(rs: seq<Request>, r: Request)
    ensures forall m :: Listed(rs + [r], m) <==> Listed(rs, m) || m == r.mac
    ensures forall n :: Wanted(rs + [r], n) <==> Wanted(rs, n) || n == r.name
  {
    assert r in rs + [r];
  }

  lemma PlacedNicStep(t: Table, rs: seq<Request>, p: Plan, r: Request, q: Plan, aside: bool, h: string, i: nat, m: string)
    requires p.table.Keys == t.Keys && r.mac in t && Injective(p.table) && Fresh(rs, r)
    requires m in t && PlacedNic(t, rs, p, m) && PlacedNic(t, rs, p, r.mac) && (aside ==> h in t && PlacedNic(t, rs, p, h))
    requires p.table[r.mac].name != r.name && Shape(p, r, q, aside, h, i)
    requires forall r' :: r' in rs ==> r'.mac in p.table && p.table[r'.mac].name == r'.name
    ensures m in q.table && PlacedNic(t, rs + [r], q, m)
  {
    FreshGrows(rs, r);
    if aside && m == h {
      assert IsTemp(q.table[m].name, q.tmpi);
    }
  }

  lemma PlacedStep(t: Table, rs: seq<Request>, p: Plan, r: Request)
    requires p.tmpi >= -1 && Placed(t, rs, p) && Injective(p.table) && Fresh(rs, r) && Clean(p, r)
    ensures Placed(t, rs + [r], Step(p, r))
  {
    var q := Step(p, r);
    FreshGrows(rs, r);
    if p.table[r.mac].name != r.name {
      var aside, h, i := StepShape(p, r);
      forall m | m in t ensures PlacedNic(t, rs + [r], q, m) {
        PlacedNicStep(t, rs, p, r, q, aside, h, i, m);
      }
      forall r' | r' in rs ensures q.table[r'.mac].name == r'.name {
        assert Wanted(rs, r'.name) && Listed(rs, r'.mac);
      }
    }
  }

  lemma JustifiedStep(t: Table, rs: seq<Request>, p: Plan, r: Request, q: Plan, aside: bool, h: string, i: nat, op: Op)
    requires p.table.Keys == t.Keys && r.mac in t && Fresh(rs, r) && NoTemps(rs)
    requires Shape(p, r, q, aside, h, i)
    requires Justified(t, rs, p, op)
    ensures q.table.Keys == t.Keys && Justified(t, rs + [r], q, op)
  {
    FreshGrows(rs, r);
    assert op.nic != r.name;
    if aside && op.nic == Temp(i) && !Wanted(rs, op.nic) {
      var j: nat :| j <= p.tmpi && op.nic == Temp(j);
      TempInjective(i, j);
    }
  }

  lemma NewUpsJustified(t: Table, rs: seq<Request>, p: Plan, r: Request, q: Plan, aside: bool, h: string, i: nat)
    requires p.table.Keys == t.Keys && r.mac in t && Fresh(rs, r) && Injective(q.table)
    requires !Listed(rs, r.mac) && p.table[r.mac].up == t[r.mac].up && (aside ==> h in t && p.table[h].up == t[h].up)
    requires Shape(p, r, q, aside, h, i)
    ensures q.table.Keys == t.Keys
    ensures t[r.mac].up ==> Justified(t, rs + [r], q, Up(r.name))
    ensures aside && t[h].up ==> Justified(t, rs + [r], q, Up(Temp(i)))
  {
    FreshGrows(rs, r);
    assert q.table[r.mac].name == r.name;
    if aside {
      assert q.table[h].name == Temp(i);
      assert IsTemp(Temp(i), q.tmpi);
    }
  }

  /** The displaced NIC, if there is one, is not listed and still has its old state. */
  lemma AsideUntouched(t: Table, rs: seq<Request>, p: Plan, r: Request, q: Plan, aside: bool, h: string, i: nat)
    requires Placed(t, rs, p) && Fresh(rs, r) && r.mac in t && Shape(p, r, q, aside, h, i)
    ensures !Listed(rs, r.mac) && p.table[r.mac].up == t[r.mac].up
    ensures aside ==> h in t && !Listed(rs, h) && t[h].name == r.name && p.table[h].up == t[h].up
  {
    assert PlacedNic(t, rs, p, r.mac);
    if aside {
      assert PlacedNic(t, rs, p, h);
      assert Listed(rs, h) ==> Wanted(rs, r.name);
    }
  }

  lemma RaisedStep(t: Table, p: Plan, r: Request, q: Plan, aside: bool, h: string, i: nat, m: string)
    requires m in t && p.table.Keys == t.Keys && r.mac in t && Shape(p, r, q, aside, h, i)
    requires p.table[r.mac].up == t[r.mac].up && (aside ==> h in t && p.table[h].up == t[h].up)
    requires Raised(t, p, m)
    ensures m in q.table && Raised(t, q, m)
  {
    if aside && m == h {
      assert q.ups == AddUp(AddUp(p.ups, p.table[r.mac].up, r.name), p.table[h].up, Temp(i));
    }
  }

  lemma UpsPlacedStep(t: Table, rs: seq<Request>, p: Plan, r: Request)
    requires p.tmpi >= -1 && Placed(t, rs, p) && UpsPlaced(t, rs, p)
    requires Injective(Step(p, r).table) && Fresh(rs, r) && NoTemps(rs) && Clean(p, r)
    ensures Step(p, r).table.Keys == t.Keys && UpsPlaced(t, rs + [r], Step(p, r))
  {
    var q := Step(p, r);
    if p.table[r.mac].name == r.name {
      FreshGrows(rs, r);
      forall op | op in p.ups ensures Justified(t, rs + [r], p, op) {
        assert Justified(t, rs, p, op);
      }
    } else {
      var aside, h, i := StepShape(p, r);
      AsideUntouched(t, rs, p, r, q, aside, h, i);
      NewUpsJustified(t, rs, p, r, q, aside, h, i);
      forall op | op in q.ups ensures Justified(t, rs + [r], q, op) {
        if op in p.ups {
          JustifiedStep(t, rs, p, r, q, aside, h, i, op);
        }
      }
      forall m | m in t ensures Raised(t, q, m) {
        RaisedStep(t, p, r, q, aside, h, i, m);
      }
    }
  }

  lemma NameNeverReturns(t: Table, rs: seq<Request>, p: Plan, r: Request, m: string)
    requires p.tmpi >= -1 && Placed(t, rs, p) && Fresh(rs, r) && Clean(p, r) && m in t
    ensures m in Step(p, r).table
    ensures Step(p, r).table[m].name != p.table[m].name ==> Step(p, r).table[m].name != t[m].name
  {
    if p.table[r.mac].name != r.name {
      var aside, h, i := StepShape(p, r);
      AsideUntouched(t, rs, p, r, Step(p, r), aside, h, i);
      assert PlacedNic(t, rs, p, m);
    }
  }

  lemma OnlyMovedStep(t: Table, rs: seq<Request>, p: Plan, r: Request, sys: System, sys': System)
    requires p.tmpi >= -1 && Placed(t, rs, p) && Fresh(rs, r) && Clean(p, r)
    requires Matches(sys, p.table) && OnlyMovedAreDown(t, p, sys)
    requires var q := Step(p, r); Matches(sys', q.table) && Moved(sys, p.table, sys', q.table, true)
    ensures Step(p, r).table.Keys == t.Keys && OnlyMovedAreDown(t, Step(p, r), sys')
  {
    forall m | m in t
      ensures Step(p, r).table[m].name != p.table[m].name ==> Step(p, r).table[m].name != t[m].name
    {
      NameNeverReturns(t, rs, p, r, m);
    }
  }

  lemma LastIsFresh(rs: seq<Request>)
    requires rs != [] && Distinct(rs) && NoTemps(rs)
    ensures var init := rs[..|rs| - 1];
            Distinct(init) && NoTemps(init) && Fresh(init, rs[|rs| - 1]) && init + [rs[|rs| - 1]] == rs
  {
    assert rs[|rs| - 1] in rs;
  }

  /** The induction behind the theorems: as long as no error is recorded, every
      request so far was feasible and the plan is as it should be. */
  lemma {:induction false} PlanInvariant(t: Table, rs: seq<Request>) returns (sys: System)
    requires Injective(t) && Named(t) && Distinct(rs) && NoTemps(rs)
    ensures var p := PlanAll(t, rs);
            && Injective(p.table)
            && (p.errors == [] <==> forall r :: r in rs ==> Feasible(t, r))
            && (p.errors == [] ==>
                  && Placed(t, rs, p) && UpsPlaced(t, rs, p)
                  && Reaches(SystemOf(t), p.ops, true, sys, p.table) && OnlyMovedAreDown(t, p, sys))
  {
    sys := PlanReplays(t, rs);
    if rs == [] {
      SystemOfMatches(t);
      sys := SystemOf(t);
    } else {
      var init, r := rs[..|rs| - 1], rs[|rs| - 1];
      var p := PlanAll(t, init);
      LastIsFresh(rs);
      var before := PlanInvariant(t, init);
      StepErrors(p, r);
      assert forall r' :: r' in rs <==> r' in init || r' == r;
      if p.errors == [] {
        CleanIffFeasible(t, init, p, r);
        if Clean(p, r) {
          sys := PlanInvariantStep(t, init, p, r, before);
        }
      }
    }
  }

  lemma PlanInvariantStep(t: Table, rs: seq<Request>, p: Plan, r: Request, sys: System) returns (sys': System)
    requires p.tmpi >= -1 && Fresh(rs, r) && NoTemps(rs) && Clean(p, r)
    requires Injective(t) && Injective(p.table) && Placed(t, rs, p) && UpsPlaced(t, rs, p)
    requires Reaches(SystemOf(t), p.ops, true, sys, p.table) && OnlyMovedAreDown(t, p, sys)
    ensures var q := Step(p, r);
            && Placed(t, rs + [r], q) && UpsPlaced(t, rs + [r], q)
            && Reaches(SystemOf(t), q.ops, true, sys', q.table) && OnlyMovedAreDown(t, q, sys')
  {
    forall m | m in t && p.table[m].name == t[m].name ensures p.table[m].up == t[m].up {
      assert PlacedNic(t, rs, p, m);
    }
    StepErrors(p, r);
    sys' := StepReplays(p, r, SystemOf(t), true, sys);
    MatchesNames(sys', Step(p, r).table);
    PlacedStep(t, rs, p, r);
    UpsPlacedStep(t, rs, p, r);
    OnlyMovedStep(t, rs, p, r, sys, sys');
  }

  /** Planning fails exactly when some request is not feasible to begin with: the
      temporary names and the order of the requests make no difference. */
  lemma PlanFailsIff(t: Table, rs: seq<Request>)
    requires Injective(t) && Named(t) && Distinct(rs) && NoTemps(rs)
    ensures PlanAll(t, rs).errors == [] <==> forall r :: r in rs ==> Feasible(t, r)
  {
    var _ := PlanInvariant(t, rs);
  }

  lemma {:induction false} RunUps(ups: seq<Op>, sys: System)
    requires forall op :: op in ups ==> op.Up?
    ensures var end := RunAll(ups, sys);
            && end.Keys == sys.Keys
            && forall n :: n in sys ==> end[n] == NicState(sys[n].mac, sys[n].up || Up(n) in ups)
  {
    if ups != [] {
      assert ups[|ups| - 1] in ups;
      RunUps(ups[..|ups| - 1], sys);
      assert ups == ups[..|ups| - 1] + [ups[|ups| - 1]];
    }
  }

  lemma {:induction false} RunReplayed(ops: seq<Op>, sys: System, strict: bool)
    requires Replay(ops, sys, strict).Some?
    ensures RunAll(ops, sys) == Replay(ops, sys, strict).value
  {
    if ops != [] {
      RunReplayed(ops[..|ops| - 1], sys, strict);
    }
  }

  lemma {:induction false} RunConcat(a: seq<Op>, b: seq<Op>, sys: System)
    ensures RunAll(a + b, sys) == RunAll(b, RunAll(a, sys))
  {
    if b == [] {
      assert a + b == a;
    } else {
      RunConcat(a, b[..|b| - 1], sys);
      assert (a + b)[..|a + b| - 1] == a + b[..|b| - 1];
    }
  }

  /** Where a NIC is meant to end up: a listed NIC under its new name, one whose
      name was taken under a temporary name, any other where it was; and each of
      them up or down exactly as it was at the start. */
  ghost predicate Served(t: Table, rs: seq<Request>, m: string, end: System, name: string)
    requires m in t
  {
    && name in end && end[name] == NicState(m, t[m].up)
    && (forall r :: r in rs && r.mac == m ==> name == r.name)
    && (!Listed(rs, m) && !Wanted(rs, t[m].name) ==> name == t[m].name)
    && (!Listed(rs, m) && Wanted(rs, t[m].name) ==> exists i: nat :: name == Temp(i))
  }

  /** What a feasible set of requests achieves: no error is recorded, no planned
      operation fails, no NIC is renamed while it is up, and every NIC is served. */
  lemma RenamingSucceeds(t: Table, rs: seq<Request>)
    requires Injective(t) && Named(t) && Distinct(rs) && NoTemps(rs)
    requires forall r :: r in rs ==> Feasible(t, r)
    ensures PlanAll(t, rs).errors == [] && Replay(PlanAll(t, rs).ops, SystemOf(t), true).Some?
    ensures var end := RunAll(PlanAll(t, rs).ops + PlanAll(t, rs).ups, SystemOf(t));
            forall m :: m in t ==> exists name :: Served(t, rs, m, end, name)
  {
    var p := PlanAll(t, rs);
    var sys := PlanInvariant(t, rs);
    forall op | op in p.ups ensures op.Up? {
      assert Justified(t, rs, p, op);
    }
    RunReplayed(p.ops, SystemOf(t), true);
    RunConcat(p.ops, p.ups, SystemOf(t));
    RunUps(p.ups, sys);
    forall m | m in t ensures Served(t, rs, m, RunAll(p.ups, sys), p.table[m].name) {
      assert PlacedNic(t, rs, p, m) && Raised(t, p, m);
      if Up(p.table[m].name) in p.ups {
        assert Justified(t, rs, p, Up(p.table[m].name));
      }
    }
  }
}
