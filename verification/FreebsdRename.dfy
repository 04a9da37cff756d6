/** The FreeBSD interface rename planner: NIC names are permuted by `down`,
    `rename` and `up` operations, with temporary names breaking the cycles.

    `PlanAll` says what the planner computes, as a value; `RenameInterfaces` is
    the planner itself, over shared NIC records indexed by mac and by name. */
module RenamePlan {
  import Decimal

  /** What the planner knows about one NIC. */
  datatype NicInfo = NicInfo(name: string, up: bool, downable: bool)

  /** The planner's table, by mac address. */
  type Table = map<string, NicInfo>

  datatype Request = Request(mac: string, name: string)

  datatype Op = Down(nic: string) | Rename(cur: string, new_: string) | Up(nic: string)

  datatype PlanError =
    | NotPresent(r: Request)
    | Busy(r: Request, cur: string)
    | BusyTarget(r: Request, cur: string)

  datatype Plan = Plan(table: Table, tmpi: int, ops: seq<Op>, ups: seq<Op>, errors: seq<PlanError>)

  // ---------------------------------------------------------------- names

  ghost function Names(t: Table): set<string> {
    set m | m in t :: t[m].name
  }

  ghost predicate Injective(t: Table) {
    forall a, b :: a in t && b in t && t[a].name == t[b].name ==> a == b
  }

  ghost function Holder(t: Table, name: string): (m: string)
    requires name in Names(t)
    ensures m in t && t[m].name == name
  {
    var m :| m in t && t[m].name == name;
    m
  }

  /** `"cirename%d" % i` */
  function Temp(i: nat): string {
    "cirename" + Decimal.Print(i)
  }

  lemma TempInjective(i: nat, j: nat)
    requires Temp(i) == Temp(j)
    ensures i == j
  {
    assert Temp(i)[8..] == Decimal.Print(i) && Temp(j)[8..] == Decimal.Print(j);
    Decimal.PrintInjective(i, j);
  }

  /** The first index from `i` on whose temporary name is not in use. A name
      already rejected never matters again, so the search ends. */
  ghost function FirstFree(names: set<string>, i: nat): nat
    decreases names
  {
    if Temp(i) !in names then i else FirstFree(names - {Temp(i)}, i + 1)
  }

  lemma {:induction false} FirstFreeIsLeast(names: set<string>, i: nat)
    ensures FirstFree(names, i) >= i && Temp(FirstFree(names, i)) !in names
    ensures forall k: nat :: i <= k < FirstFree(names, i) ==> Temp(k) in names
    decreases names
  {
    if Temp(i) in names {
      FirstFreeIsLeast(names - {Temp(i)}, i + 1);
      var r := FirstFree(names, i);
      if Temp(r) == Temp(i) {
        TempInjective(r, i);
      }
    }
  }

  // ---------------------------------------------------------------- the plan

  ghost function Start(t: Table): Plan {
    Plan(t, -1, [], [], [])
  }

  ghost function Fail(p: Plan, e: PlanError): Plan {
    p.(errors := p.errors + [e])
  }

  ghost function AddDown(ops: seq<Op>, up: bool, name: string): seq<Op> {
    if up then ops + [Down(name)] else ops
  }

  ghost function AddUp(ups: seq<Op>, up: bool, name: string): seq<Op> {
    if up then ups + [Up(name)] else ups
  }

  /** Handles one request. The NIC is marked down, and its `up` recorded, before
      the target is looked at: a busy target then drops only the operations. */
  ghost function Step(p: Plan, r: Request): Plan
    requires p.tmpi >= -1
  {
    if r.mac in p.table && p.table[r.mac].name == r.name then
      p
    else if r.mac !in p.table || p.table[r.mac].name == "" then
      Fail(p, NotPresent(r))
    else
      var nic := p.table[r.mac];
      if !Movable(nic) then
        Fail(p, Busy(r, nic.name))
      else
        MakeRoom(TakenDown(p, r), r, AddDown([], nic.up, nic.name))
  }

  ghost function TakenDown(p: Plan, r: Request): Plan
    requires r.mac in p.table
  {
    p.(table := p.table[r.mac := p.table[r.mac].(up := false)],
       ups := AddUp(p.ups, p.table[r.mac].up, r.name))
  }

  /** Moves whoever holds the requested name to a temporary one. */
  ghost function MakeRoom(p: Plan, r: Request, curOps: seq<Op>): Plan
    requires p.tmpi >= -1 && r.mac in p.table && p.table[r.mac].name != r.name
  {
    if r.name !in Names(p.table) then
      Take(p, r, curOps)
    else
      var h := Holder(p.table, r.name);
      var target := p.table[h];
      if !Movable(target) then
        Fail(p, BusyTarget(r, p.table[r.mac].name))
      else
        var i := FirstFree(Names(p.table), p.tmpi + 1);
        Take(Aside(p, h, i), r, AddDown(curOps, target.up, r.name) + [Rename(r.name, Temp(i))])
  }

  ghost predicate Movable(nic: NicInfo) {
    !nic.up || nic.downable
  }

  /** The requested name is free, or its holder can be taken down. */
  ghost predicate Vacant(p: Plan, name: string) {
    name in Names(p.table) ==> Movable(p.table[Holder(p.table, name)])
  }

  ghost function Aside(p: Plan, h: string, i: nat): Plan
    requires h in p.table
  {
    p.(table := p.table[h := p.table[h].(name := Temp(i))], tmpi := i,
       ups := AddUp(p.ups, p.table[h].up, Temp(i)))
  }

  ghost function Take(p: Plan, r: Request, curOps: seq<Op>): Plan
    requires r.mac in p.table
  {
    p.(table := p.table[r.mac := p.table[r.mac].(name := r.name)],
       ops := p.ops + (curOps + [Rename(p.table[r.mac].name, r.name)]))
  }

  lemma StepKeepsIndex(p: Plan, r: Request)
    requires p.tmpi >= -1
    ensures Step(p, r).tmpi >= p.tmpi
  {
    hide MakeRoom, Movable;
    if r.mac in p.table && p.table[r.mac].name != r.name {
      RoomKeepsIndex(TakenDown(p, r), r, AddDown([], p.table[r.mac].up, p.table[r.mac].name));
    }
  }

  lemma RoomKeepsIndex(p: Plan, r: Request, curOps: seq<Op>)
    requires p.tmpi >= -1 && r.mac in p.table && p.table[r.mac].name != r.name
    ensures MakeRoom(p, r, curOps).tmpi >= p.tmpi
  {
    hide FirstFree, Names, Holder, Movable, Temp;
    FirstFreeIsLeast(Names(p.table), p.tmpi + 1);
  }

  ghost function PlanAll(t: Table, rs: seq<Request>): (p: Plan)
    ensures p.tmpi >= -1
  {
    if rs == [] then Start(t)
    else
      var before := PlanAll(t, rs[..|rs| - 1]);
      StepKeepsIndex(before, rs[|rs| - 1]);
      Step(before, rs[|rs| - 1])
  }
}
