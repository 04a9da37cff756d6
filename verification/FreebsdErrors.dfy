/** What the planner keeps to when requests fail: they cost the others nothing. */
module RenameErrors {
  import opened Options
  import opened RenamePlan
  import opened RenameReplay
  import opened RenameGoal

  // ---------------------------------------------------------------- nothing planned is taken back

  ghost predicate Extends(q: Plan, p: Plan) {
    p.ops <= q.ops && p.ups <= q.ups && p.errors <= q.errors
  }

  lemma RoomExtends(p: Plan, r: Request, curOps: seq<Op>)
    requires p.tmpi >= -1 && r.mac in p.table && p.table[r.mac].name != r.name
    ensures Extends(MakeRoom(p, r, curOps), p)
  {
    hide FirstFree, Names, Holder, Movable, Temp;
    if r.name in Names(p.table) {
      FirstFreeIsLeast(Names(p.table), p.tmpi + 1);
    }
  }

  lemma StepExtends(p: Plan, r: Request)
    requires p.tmpi >= -1
    ensures Extends(Step(p, r), p)
  {
    hide MakeRoom, Movable;
    if r.mac in p.table && p.table[r.mac].name != r.name {
      RoomExtends(TakenDown(p, r), r, AddDown([], p.table[r.mac].up, p.table[r.mac].name));
    }
  }

  /** What has been planned for the first requests, and the errors of these, stay whatever
      comes after: a failing request takes nothing back. */
  lemma {:induction false} PlansExtend(t: Table, rs: seq<Request>, n: nat)
    requires n <= |rs|
    ensures Extends(PlanAll(t, rs), PlanAll(t, rs[..n]))
    decreases |rs|
  {
    hide Step;
    if n == |rs| {
      assert rs[..n] == rs;
    } else {
      var init := rs[..|rs| - 1];
      assert init[..n] == rs[..n];
      PlansExtend(t, init, n);
      StepExtends(PlanAll(t, init), rs[|rs| - 1]);
    }
  }

  // ---------------------------------------------------------------- operations only lower

  ghost predicate NoUps(ops: seq<Op>) {
    forall op :: op in ops ==> !op.Up?
  }

  ghost predicate AllUps(ups: seq<Op>) {
    forall op :: op in ups ==> op.Up?
  }

  ghost predicate Tidy(p: Plan) {
    NoUps(p.ops) && AllUps(p.ups)
  }

  lemma RoomIsTidy(p: Plan, r: Request, curOps: seq<Op>)
    requires p.tmpi >= -1 && r.mac in p.table && p.table[r.mac].name != r.name
    requires Tidy(p) && NoUps(curOps)
    ensures Tidy(MakeRoom(p, r, curOps))
  {
    hide FirstFree, Names, Holder, Movable, Temp;
    if r.name in Names(p.table) {
      FirstFreeIsLeast(Names(p.table), p.tmpi + 1);
    }
  }

  lemma StepIsTidy(p: Plan, r: Request)
    requires p.tmpi >= -1 && Tidy(p)
    ensures Tidy(Step(p, r))
  {
    hide MakeRoom, Movable;
    if r.mac in p.table && p.table[r.mac].name != r.name {
      RoomIsTidy(TakenDown(p, r), r, AddDown([], p.table[r.mac].up, p.table[r.mac].name));
    }
  }

  lemma {:induction false} PlanIsTidy(t: Table, rs: seq<Request>)
    ensures Tidy(PlanAll(t, rs))
  {
    hide Step;
    if rs != [] {
      PlanIsTidy(t, rs[..|rs| - 1]);
      StepIsTidy(PlanAll(t, rs[..|rs| - 1]), rs[|rs| - 1]);
    }
  }

  /** A NIC that is up was up before. */
  ghost predicate NoneRaised(sys0: System, sys: System) {
    forall n :: n in sys && sys[n].up ==> exists n0 :: n0 in sys0 && sys0[n0] == sys[n]
  }

  lemma {:induction false} ReplayRaisesNone(ops: seq<Op>, sys0: System, sys: System)
    requires NoUps(ops) && Replay(ops, sys0, false) == Some(sys)
    ensures NoneRaised(sys0, sys)
  {
    if ops != [] {
      var op, mid := ops[|ops| - 1], Replay(ops[..|ops| - 1], sys0, false).value;
      ReplayRaisesNone(ops[..|ops| - 1], sys0, mid);
      assert op in ops;
      forall n | n in sys && sys[n].up ensures exists n0 :: n0 in sys0 && sys0[n0] == sys[n] {
        var m := if op.Rename? && n == op.new_ then op.cur else n;
        assert m in mid && mid[m] == sys[n];
      }
    }
  }

  // ---------------------------------------------------------------- requests that succeed are served

  /** The request was handled without an error. */
  ghost predicate Succeeds(t: Table, rs: seq<Request>, i: nat)
    requires i < |rs|
  {
    PlanAll(t, rs[..i + 1]).errors == PlanAll(t, rs[..i]).errors
  }

  ghost predicate IsTempName(name: string) {
    exists i: nat :: name == Temp(i)
  }

  /** A NIC that no request so far was for has its state, and its name or a temporary one. */
  ghost predicate Waiting(t: Table, p: Plan, sys: System, m: string)
    requires m in t && m in p.table && p.table[m].name in sys
  {
    && p.table[m].up == t[m].up
    && (p.table[m].name == t[m].name || IsTempName(p.table[m].name))
    && (p.table[m].name == t[m].name ==> sys[t[m].name].up == t[m].up)
  }

  /** The NIC has the name it was to have, and is or will be up as it was. */
  ghost predicate Settled(t: Table, p: Plan, sys: System, r: Request) {
    && r.mac in t && r.mac in p.table && p.table[r.mac].name == r.name && r.name in sys
    && ((sys[r.name].up || Up(r.name) in p.ups) <==> t[r.mac].up)
  }

  /** A temporary name, or that of a request for a NIC that was up. */
  ghost predicate MayRise(t: Table, rs: seq<Request>, name: string) {
    IsTempName(name) || exists r :: r in rs && r.name == name && r.mac in t && t[r.mac].up
  }

  ghost predicate UpsFrom(t: Table, rs: seq<Request>, ups: seq<Op>) {
    forall op :: op in ups ==> op.Up? && MayRise(t, rs, op.nic)
  }

  lemma UpsMore(t: Table, rs: seq<Request>, ups: seq<Op>, r: Request, more: seq<Op>)
    requires UpsFrom(t, rs, ups)
    requires forall op :: op in more ==> op.Up? && (IsTempName(op.nic) || (op.nic == r.name && r.mac in t && t[r.mac].up))
    ensures UpsFrom(t, rs + [r], ups + more)
  {
    hide IsTempName;
    forall op | op in ups + more ensures op.Up? && MayRise(t, rs + [r], op.nic) {
      assert r in rs + [r] && forall r' :: r' in rs ==> r' in rs + [r];
      if op in ups {
        assert MayRise(t, rs, op.nic);
      }
    }
  }

  ghost predicate AllWait(t: Table, rs: seq<Request>, p: Plan, sys: System) {
    forall m :: m in t && !Listed(rs, m) ==> m in p.table && p.table[m].name in sys && Waiting(t, p, sys, m)
  }

  ghost predicate Progress(t: Table, rs: seq<Request>, p: Plan, sys: System) {
    && Injective(t) && p.tmpi >= -1 && p.table.Keys == t.Keys
    && Reaches(SystemOf(t), p.ops, false, sys, p.table) && NoneRaised(SystemOf(t), sys)
    && UpsFrom(t, rs, p.ups) && AllWait(t, rs, p, sys)
  }

  lemma NotUpBefore(t: Table, p: Plan, sys: System, m: string)
    requires Injective(t) && Matches(sys, p.table) && NoneRaised(SystemOf(t), sys) && m in t && m in p.table
    ensures sys[p.table[m].name].up ==> t[m].up
  {
    if sys[p.table[m].name].up {
      var n0 :| n0 in SystemOf(t) && SystemOf(t)[n0] == sys[p.table[m].name];
    }
  }

  lemma NoUpFor(t: Table, rs: seq<Request>, ups: seq<Op>, name: string)
    requires UpsFrom(t, rs, ups) && !IsTempName(name) && !Wanted(rs, name)
    ensures Up(name) !in ups
  {
    hide IsTempName;
  }

  lemma FailedShape(p: Plan, r: Request)
    requires p.tmpi >= -1 && !Clean(p, r)
    ensures var q := Step(p, r);
            && q.ops == p.ops && q.tmpi == p.tmpi
            && (q == p.(errors := q.errors) || (r.mac in p.table && q == TakenDown(p, r).(errors := q.errors)))
  {
  }

  /** A request that fails plans nothing, and at most brings up what it was to rename. */
  lemma FailedStep(t: Table, rs: seq<Request>, p: Plan, sys: System, r: Request)
    requires Progress(t, rs, p, sys) && Fresh(rs, r) && !Clean(p, r)
    ensures Progress(t, rs + [r], Step(p, r), sys)
    ensures forall r' :: r' in rs && Settled(t, p, sys, r') ==> Settled(t, Step(p, r), sys, r')
  {
    hide Step, Injective, Clean, Replay, NoneRaised, UpsFrom, Listed, IsTempName;
    var q := Step(p, r);
    FreshGrows(rs, r);
    FailedShape(p, r);
    if r.mac in p.table {
      assert !Listed(rs, r.mac) && Waiting(t, p, sys, r.mac);
      UpsMore(t, rs, p.ups, r, if p.table[r.mac].up then [Up(r.name)] else []);
    }
    UpsMore(t, rs, p.ups, r, []);
    assert p.ups + [] == p.ups;
    forall r' | r' in rs && Settled(t, p, sys, r') ensures Settled(t, q, sys, r') {
      assert Wanted(rs, r'.name);
    }
  }

  ghost function NewUps(p: Plan, r: Request, aside: bool, h: string, i: nat): seq<Op>
    requires r.mac in p.table && (aside ==> h in p.table)
  {
    (if p.table[r.mac].up then [Up(r.name)] else []) + if aside && p.table[h].up then [Up(Temp(i))] else []
  }

  lemma ShapeUps(p: Plan, r: Request, q: Plan, aside: bool, h: string, i: nat)
    requires r.mac in p.table && Shape(p, r, q, aside, h, i)
    ensures q.ups == p.ups + NewUps(p, r, aside, h, i)
  {
    hide Names, Temp;
  }

  lemma WaitingStep(t: Table, rs: seq<Request>, p: Plan, sys: System, r: Request, q: Plan, sys': System,
                    aside: bool, h: string, i: nat, m: string)
    requires r.mac in p.table && Shape(p, r, q, aside, h, i) && m in t && m in p.table && m != r.mac
    requires p.table[m].name in sys && Waiting(t, p, sys, m) && !IsTempName(r.name)
    requires Matches(sys, p.table) && Matches(sys', q.table) && Moved(sys, p.table, sys', q.table, false)
    ensures m in q.table && q.table[m].name in sys' && Waiting(t, q, sys', m)
  {
    hide Injective, Names, Temp;
    assert aside ==> IsTempName(Temp(i));
  }

  lemma NoNewUp(p: Plan, r: Request, aside: bool, h: string, i: nat, name: string)
    requires r.mac in p.table && (aside ==> h in p.table) && name != r.name && !IsTempName(name)
    ensures Up(name) !in NewUps(p, r, aside, h, i)
  {
    hide Temp;
    assert IsTempName(Temp(i));
  }

  lemma SettledStep(t: Table, p: Plan, sys: System, r: Request, q: Plan, sys': System, aside: bool, h: string, i: nat, r': Request)
    requires r.mac in p.table && Shape(p, r, q, aside, h, i)
    requires r'.mac != r.mac && r'.name != r.name && !IsTempName(r'.name) && Settled(t, p, sys, r')
    requires Matches(sys, p.table) && Matches(sys', q.table) && Moved(sys, p.table, sys', q.table, false)
    ensures Settled(t, q, sys', r')
  {
    hide Injective, Names, Temp, AddUp, NewUps, IsTempName;
    ShapeUps(p, r, q, aside, h, i);
    NoNewUp(p, r, aside, h, i, r'.name);
    assert q.table[r'.mac] == p.table[r'.mac];
    assert sys'[r'.name] == sys[r'.name];
  }

  lemma OwnSettled(t: Table, p: Plan, r: Request, q: Plan, sys': System, aside: bool, h: string, i: nat)
    requires r.mac in p.table && Shape(p, r, q, aside, h, i) && r.mac in t && p.table[r.mac].up == t[r.mac].up
    requires Up(r.name) !in p.ups && !IsTempName(r.name)
    requires Injective(t) && Matches(sys', q.table) && NoneRaised(SystemOf(t), sys')
    ensures Settled(t, q, sys', r)
  {
    hide Injective, Names, Temp, NoneRaised;
    assert aside ==> IsTempName(Temp(i));
    NotUpBefore(t, q, sys', r.mac);
  }

  lemma CleanUps(t: Table, rs: seq<Request>, p: Plan, r: Request, q: Plan, aside: bool, h: string, i: nat)
    requires r.mac in p.table && Shape(p, r, q, aside, h, i) && r.mac in t && p.table[r.mac].up == t[r.mac].up
    requires UpsFrom(t, rs, p.ups)
    ensures UpsFrom(t, rs + [r], q.ups)
  {
    hide Names, Temp, UpsFrom;
    ShapeUps(p, r, q, aside, h, i);
    assert IsTempName(Temp(i));
    UpsMore(t, rs, p.ups, r, NewUps(p, r, aside, h, i));
  }

  /** A request that succeeds settles its own NIC and leaves the others as they are. */
  lemma CleanStep(t: Table, rs: seq<Request>, p: Plan, sys: System, r: Request, sys': System)
    requires Progress(t, rs, p, sys) && Fresh(rs, r) && NoTemps(rs) && Clean(p, r) && p.table[r.mac].name != r.name
    requires var q := Step(p, r);
             && Reaches(SystemOf(t), q.ops, false, sys', q.table) && NoneRaised(SystemOf(t), sys')
             && Moved(sys, p.table, sys', q.table, false)
    ensures Progress(t, rs + [r], Step(p, r), sys') && Settled(t, Step(p, r), sys', r)
    ensures forall r' :: r' in rs && Settled(t, p, sys, r') ==> Settled(t, Step(p, r), sys', r')
  {
    hide Step, Injective, Clean, Replay, NoneRaised, UpsFrom, Listed, Wanted, Matches, Settled, IsTempName, Waiting, Shape;
    var q := Step(p, r);
    FreshGrows(rs, r);
    StepKeepsKeys(p, r);
    StepKeepsIndex(p, r);
    var aside, h, i := StepShape(p, r);
    assert !Listed(rs, r.mac);
    WaitingMeans(t, p, sys, r.mac);
    NotTemp(r.name);
    NoUpFor(t, rs, p.ups, r.name);
    CleanUps(t, rs, p, r, q, aside, h, i);
    OwnSettled(t, p, r, q, sys', aside, h, i);
    forall m | m in t && !Listed(rs + [r], m) ensures m in q.table && q.table[m].name in sys' && Waiting(t, q, sys', m) {
      WaitingStep(t, rs, p, sys, r, q, sys', aside, h, i, m);
    }
    forall r' | r' in rs && Settled(t, p, sys, r') ensures Settled(t, q, sys', r') {
      RequestIsListed(rs, r');
      NotTemp(r'.name);
      SettledStep(t, p, sys, r, q, sys', aside, h, i, r');
    }
  }

  lemma RequestIsListed(rs: seq<Request>, r: Request)
    requires r in rs
    ensures Listed(rs, r.mac) && Wanted(rs, r.name)
  {
  }

  lemma NotTemp(name: string)
    requires forall i: nat :: name != Temp(i)
    ensures !IsTempName(name)
  {
  }

  lemma WaitingMeans(t: Table, p: Plan, sys: System, m: string)
    requires m in t && m in p.table && p.table[m].name in sys && Waiting(t, p, sys, m)
    ensures p.table[m].up == t[m].up
  {
  }

  lemma StartProgress(t: Table, sys: System)
    requires Injective(t) && sys == SystemOf(t)
    ensures Progress(t, [], PlanAll(t, []), sys)
  {
    hide Injective;
    SystemOfMatches(t);
  }

  lemma SameSystem(t: Table, ops: seq<Op>, a: System, b: System)
    requires Injective(t) && Replay(ops, SystemOf(t), false) == Some(a) && Replay(ops, SystemOf(t), false) == Some(b)
    ensures a == b
  {
  }

  /** A NIC that has its name already is settled as it is. */
  lemma KeptStep(t: Table, rs: seq<Request>, p: Plan, sys: System, r: Request)
    requires Progress(t, rs, p, sys) && Fresh(rs, r) && Clean(p, r) && p.table[r.mac].name == r.name
    ensures Progress(t, rs + [r], Step(p, r), sys) && Step(p, r) == p && Settled(t, p, sys, r)
  {
    hide Injective, Replay, NoneRaised, UpsFrom, Listed, Matches, IsTempName;
    FreshGrows(rs, r);
    assert !Listed(rs, r.mac) && Waiting(t, p, sys, r.mac);
    NotTemp(r.name);
    NoUpFor(t, rs, p.ups, r.name);
    UpsMore(t, rs, p.ups, r, []);
    assert p.ups + [] == p.ups;
  }

  lemma ProgressStep(t: Table, rs: seq<Request>, p: Plan, sys: System, r: Request) returns (sys': System)
    requires Progress(t, rs, p, sys) && Fresh(rs, r) && NoTemps(rs) && NoUps(Step(p, r).ops)
    ensures Progress(t, rs + [r], Step(p, r), sys')
    ensures Clean(p, r) ==> Settled(t, Step(p, r), sys', r)
    ensures forall r' :: r' in rs && Settled(t, p, sys, r') ==> Settled(t, Step(p, r), sys', r')
  {
    hide Step, Injective, Replay, NoneRaised, Listed, Settled, Waiting, UpsFrom, Matches, AllWait, Clean, NoTemps;
    sys' := sys;
    if !Clean(p, r) {
      FailedStep(t, rs, p, sys, r);
    } else {
      CleanIsThere(p, r);
      if p.table[r.mac].name == r.name {
        KeptStep(t, rs, p, sys, r);
      } else {
        StepErrors(p, r);
        sys' := StepReplays(p, r, SystemOf(t), false, sys);
        ReplayRaisesNone(Step(p, r).ops, SystemOf(t), sys');
        CleanStep(t, rs, p, sys, r, sys');
      }
    }
  }

  lemma CleanIsThere(p: Plan, r: Request)
    requires Clean(p, r)
    ensures r.mac in p.table
  {
  }

  /** The induction: whatever fails, every request handled without an error is settled. */
  lemma {:induction false} ProgressHolds(t: Table, rs: seq<Request>) returns (sys: System)
    requires Injective(t) && Distinct(rs) && NoTemps(rs)
    ensures Progress(t, rs, PlanAll(t, rs), sys)
    ensures forall i :: 0 <= i < |rs| && Succeeds(t, rs, i) ==> Settled(t, PlanAll(t, rs), sys, rs[i])
  {
    hide Step, Injective, Clean, Progress, Settled, NoTemps, Distinct, Fresh;
    if rs == [] {
      sys := SystemOf(t);
      StartProgress(t, sys);
    } else {
      var init, r := rs[..|rs| - 1], rs[|rs| - 1];
      var p := PlanAll(t, init);
      LastIsFresh(rs);
      var before := ProgressHolds(t, init);
      PlanIsTidy(t, rs);
      sys := ProgressStep(t, init, p, before, r);
      StepErrors(p, r);
      forall i | 0 <= i < |rs| && Succeeds(t, rs, i) ensures Settled(t, PlanAll(t, rs), sys, rs[i]) {
        SucceedsBefore(t, rs, i);
      }
    }
  }

  lemma SucceedsBefore(t: Table, rs: seq<Request>, i: nat)
    requires i < |rs|
    ensures var n := |rs| - 1;
            if i < n then rs[i] in rs[..n] && rs[..n][i] == rs[i] && Succeeds(t, rs[..n], i) == Succeeds(t, rs, i)
            else Succeeds(t, rs, i) <==> PlanAll(t, rs).errors == PlanAll(t, rs[..n]).errors
  {
    hide PlanAll;
    var init := rs[..|rs| - 1];
    if i < |init| {
      assert init[..i] == rs[..i] && init[..i + 1] == rs[..i + 1] && init[i] == rs[i];
    } else {
      assert rs[..i + 1] == rs;
    }
  }

  /** Whatever other requests fail, and for whatever reason: a request that is handled without
      an error has its NIC, when all operations have run, under the name asked for and up or
      down exactly as it was at the start. */
  lemma SuccessIsServed(t: Table, rs: seq<Request>, i: nat)
    requires Injective(t) && Distinct(rs) && NoTemps(rs) && i < |rs| && Succeeds(t, rs, i)
    ensures rs[i].mac in t
    ensures var p := PlanAll(t, rs); var end := RunAll(p.ops + p.ups, SystemOf(t));
            rs[i].name in end && end[rs[i].name] == NicState(rs[i].mac, t[rs[i].mac].up)
  {
    hide PlanAll, Replay, RunAll, Injective, NoneRaised, NoTemps, Distinct, Succeeds;
    var p := PlanAll(t, rs);
    var sys := ProgressHolds(t, rs);
    RunReplayed(p.ops, SystemOf(t), false);
    RunConcat(p.ops, p.ups, SystemOf(t));
    UpsAreUps(t, rs, p.ups);
    RunUps(p.ups, sys);
  }

  lemma UpsAreUps(t: Table, rs: seq<Request>, ups: seq<Op>)
    requires UpsFrom(t, rs, ups)
    ensures forall op :: op in ups ==> op.Up?
  {
    hide MayRise;
  }

  /** A NIC that was up and is renamed without an error is among those to bring up again,
      whatever other requests do before and after it. */
  lemma RenamedIsRaised(t: Table, rs: seq<Request>, i: nat)
    requires Injective(t) && Distinct(rs) && NoTemps(rs) && i < |rs| && Succeeds(t, rs, i)
    ensures rs[i].mac in t && rs[i].mac in PlanAll(t, rs[..i]).table
    ensures t[rs[i].mac].up && PlanAll(t, rs[..i]).table[rs[i].mac].name != rs[i].name ==> Up(rs[i].name) in PlanAll(t, rs).ups
  {
    hide Injective, Replay, NoneRaised, UpsFrom, Matches, IsTempName, Step, Clean;
    var r, p := rs[i], PlanAll(t, rs[..i]);
    SuccessIsServed(t, rs, i);
    PrefixIsGood(rs, i);
    var sys := ProgressHolds(t, rs[..i]);
    assert !Listed(rs[..i], r.mac);
    assert Waiting(t, p, sys, r.mac);
    assert rs[..i + 1][..i] == rs[..i];
    StepErrors(p, r);
    PlansExtend(t, rs, i + 1);
    if t[r.mac].up && p.table[r.mac].name != r.name {
      var aside, h, k := StepShape(p, r);
      assert Up(r.name) in PlanAll(t, rs[..i + 1]).ups;
    }
  }

  lemma PrefixIsGood(rs: seq<Request>, n: nat)
    requires Distinct(rs) && NoTemps(rs) && n <= |rs|
    ensures Distinct(rs[..n]) && NoTemps(rs[..n])
  {
    assert forall r :: r in rs[..n] ==> r in rs;
  }

  /** Which error a failing request records: that its NIC is not there, that it is in use, or
      that another one in use has the name. */
  lemma ErrorTells(p: Plan, r: Request)
    requires p.tmpi >= -1 && !Clean(p, r)
    ensures |Step(p, r).errors| == |p.errors| + 1
    ensures match Step(p, r).errors[|p.errors|]
            case NotPresent(r') => r' == r && (r.mac in p.table ==> p.table[r.mac].name == "")
            case Busy(r', cur) => r' == r && r.mac in p.table && p.table[r.mac].name == cur && !Movable(p.table[r.mac])
            case BusyTarget(r', cur) =>
              && r' == r && r.mac in p.table && p.table[r.mac].name == cur && Movable(p.table[r.mac])
              && exists m :: m in p.table && m != r.mac && p.table[m].name == r.name && p.table[m].up && !p.table[m].downable
  {
    StepErrors(p, r);
    if r.mac in p.table && p.table[r.mac].name != "" && Movable(p.table[r.mac]) {
      var t1 := TakenDown(p, r).table;
      assert !Vacant(TakenDown(p, r), r.name);
      var h := Holder(t1, r.name);
      assert h != r.mac && t1[h] == p.table[h];
    }
  }
}
