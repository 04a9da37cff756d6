/** The planner itself: NIC records shared by a by-mac table and a by-name index
    that is rebuilt after every change. */
module RenamePlanner {
  import opened RenamePlan

  class Nic {
    const mac: string
    var name: string
    var up: bool
    const downable: bool

    constructor (mac: string, info: NicInfo)
      ensures this.mac == mac && Info() == info
    {
      this.mac := mac;
      name, up, downable := info.name, info.up, info.downable;
    }

    function Info(): NicInfo
      reads this
    {
      NicInfo(name, up, downable)
    }
  }

  type ByMac = map<string, Nic>

  /** The table the records hold at this moment. */
  ghost function TableOf(byMac: ByMac): Table
    reads byMac.Values
  {
    map m | m in byMac :: byMac[m].Info()
  }

  /** Each mac has a record of its own. */
  ghost predicate Separate(byMac: ByMac) {
    forall m :: m in byMac ==> byMac[m].mac == m
  }

  /** `byName` holds every record under its present name, and nothing else. */
  ghost predicate Indexes(byName: map<string, Nic>, byMac: ByMac)
    reads byMac.Values
  {
    && (forall m :: m in byMac ==> byMac[m].name in byName && byName[byMac[m].name] == byMac[m])
    && (forall n :: n in byName ==> byName[n].mac in byMac && byMac[byName[n].mac] == byName[n] && byName[n].name == n)
  }

  lemma IndexedNames(byName: map<string, Nic>, byMac: ByMac)
    requires Indexes(byName, byMac)
    ensures byName.Keys == Names(TableOf(byMac))
    ensures Separate(byMac) ==> Injective(TableOf(byMac))
  {
    forall a, b | a in byMac && b in byMac && byMac[a].name == byMac[b].name && Separate(byMac) ensures a == b {
      assert byMac[a].mac == a && byMac[b].mac == b;
    }
    forall m | m in byMac ensures byMac[m].name in Names(TableOf(byMac)) {
      assert TableOf(byMac)[m].name == byMac[m].name;
    }
    forall n | n in byName ensures n in Names(TableOf(byMac)) {
      assert TableOf(byMac)[byName[n].mac].name == n;
    }
  }

  lemma HolderIndexed(byName: map<string, Nic>, byMac: ByMac, n: string)
    requires Separate(byMac) && Indexes(byName, byMac) && n in byName
    ensures n in Names(TableOf(byMac)) && Holder(TableOf(byMac), n) == byName[n].mac
  {
    IndexedNames(byName, byMac);
    var h := Holder(TableOf(byMac), n);
    assert byMac[h].name == n;
  }

  method CopyRecords(current: Table) returns (byMac: ByMac)
    ensures Separate(byMac) && fresh(byMac.Values) && TableOf(byMac) == current
  {
    byMac := map[];
    var todo := current.Keys;
    while todo != {}
      invariant todo <= current.Keys && byMac.Keys == current.Keys - todo
      invariant Separate(byMac) && forall m :: m in byMac ==> fresh(byMac[m])
      invariant forall m :: m in byMac ==> byMac[m].Info() == current[m]
    {
      var m :| m in todo;
      var nic := new Nic(m, current[m]);
      byMac := byMac[m := nic];
      todo := todo - {m};
    }
  }

  method UpdateByName(byMac: ByMac) returns (byName: map<string, Nic>)
    requires Separate(byMac) && Injective(TableOf(byMac))
    ensures Indexes(byName, byMac)
  {
    byName := map[];
    var todo := byMac.Keys;
    while todo != {}
      invariant todo <= byMac.Keys
      invariant forall m :: m in byMac && m !in todo ==> byMac[m].name in byName && byName[byMac[m].name] == byMac[m]
      invariant forall n :: n in byName ==> byName[n].mac in byMac - todo && byMac[byName[n].mac] == byName[n] && byName[n].name == n
    {
      var m :| m in todo;
      assert forall a :: a in byMac ==> TableOf(byMac)[a].name == byMac[a].name;
      byName := byName[byMac[m].name := byMac[m]];
      todo := todo - {m};
    }
  }

  /** The search for a temporary name: it ends, at the first free index. */
  method NextTemp(byName: map<string, Nic>, tmpi: int) returns (i: nat)
    requires tmpi >= -1
    ensures i == FirstFree(byName.Keys, tmpi + 1)
  {
    i := tmpi + 1;
    ghost var names := byName.Keys;
    while Temp(i) in byName
      invariant i > tmpi && names <= byName.Keys
      invariant forall k: nat :: k >= i && Temp(k) in byName ==> Temp(k) in names
      invariant FirstFree(names, i) == FirstFree(byName.Keys, tmpi + 1)
      decreases names
    {
      forall k: nat | k >= i + 1 && Temp(k) == Temp(i) ensures false {
        TempInjective(k, i);
      }
      names := names - {Temp(i)};
      i := i + 1;
    }
  }

  method RenameInterfaces(current: Table, renames: seq<Request>)
    returns (ops: seq<Op>, ups: seq<Op>, errors: seq<PlanError>)
    requires Injective(current)
    ensures ops == PlanAll(current, renames).ops
    ensures ups == PlanAll(current, renames).ups
    ensures errors == PlanAll(current, renames).errors
  {
    ops, ups, errors := [], [], [];
    var byMac := CopyRecords(current);
    var byName := UpdateByName(byMac);
    var tmpi := -1;
    var k := 0;
    while k < |renames|
      invariant k <= |renames| && tmpi >= -1
      invariant Separate(byMac) && fresh(byMac.Values) && Indexes(byName, byMac)
      invariant PlanAll(current, renames[..k]) == Plan(TableOf(byMac), tmpi, ops, ups, errors)
    {
      assert renames[..k + 1][..k] == renames[..k];
      byName, tmpi, ops, ups, errors := PlanOne(byMac, byName, renames[k], tmpi, ops, ups, errors);
      k := k + 1;
    }
    assert renames[..k] == renames;
  }

  /** Gives one record a free name and rebuilds the index. */
  method SetName(byMac: ByMac, ghost byName0: map<string, Nic>, nic: Nic, n: string) returns (byName: map<string, Nic>)
    requires Separate(byMac) && Indexes(byName0, byMac)
    requires nic.mac in byMac && byMac[nic.mac] == nic && n !in byName0
    modifies nic
    ensures Indexes(byName, byMac) && byName.Keys == byName0.Keys - {old(nic.name)} + {n}
    ensures TableOf(byMac) == old(TableOf(byMac))[nic.mac := nic.Info()]
    ensures nic.Info() == old(nic.Info()).(name := n)
  {
    hide Indexes, Injective, Names;
    IndexedNames(byName0, byMac);
    ghost var t := TableOf(byMac);
    ghost var t' := t[nic.mac := t[nic.mac].(name := n)];
    assert t[nic.mac].name == nic.name;
    RenamedTable(t, nic.mac, n);
    nic.name := n;
    assert TableOf(byMac) == t';
    byName := UpdateByName(byMac);
    IndexedNames(byName, byMac);
    assert TableOf(byMac) == t';
  }

  lemma RenamedTable(t: Table, m: string, n: string)
    requires Injective(t) && m in t && n !in Names(t)
    ensures var t' := t[m := t[m].(name := n)];
            Injective(t') && Names(t') == Names(t) - {t[m].name} + {n}
  {
    var t' := t[m := t[m].(name := n)];
    assert forall a :: a in t ==> t[a].name in Names(t);
    assert forall a :: a in t && a != m ==> t'[a] == t[a];
    forall x | x in Names(t) && x != t[m].name ensures x in Names(t') {
      var a :| a in t && t[a].name == x;
      assert t'[a].name == x;
    }
    assert t'[m].name in Names(t');
  }

  /** Moves the holder of the requested name, if there is one, to a temporary
      name; `ok` is false when it is up and in use. */
  method Displace(byMac: ByMac, byName0: map<string, Nic>, r: Request, tmpi0: int, curOps0: seq<Op>, ups0: seq<Op>,
                  ghost p: Plan)
    returns (ok: bool, byName: map<string, Nic>, tmpi: int, curOps: seq<Op>, ups: seq<Op>)
    requires tmpi0 >= -1 && Separate(byMac) && Indexes(byName0, byMac)
    requires r.mac in byMac && byMac[r.mac].name != r.name
    requires p.table == TableOf(byMac) && p.tmpi == tmpi0 && p.ups == ups0
    modifies byMac.Values
    ensures Indexes(byName, byMac) && byMac[r.mac].Info() == old(byMac[r.mac].Info())
    ensures var p' := p.(table := TableOf(byMac), tmpi := tmpi, ups := ups);
            && r.mac in p'.table
            && MakeRoom(p, r, curOps0)
               == if ok then Take(p', r, curOps) else Fail(p', BusyTarget(r, byMac[r.mac].name))
    ensures ok ==> r.name !in byName
  {
    hide Injective, FirstFree, Names, Temp;
    ok, byName, tmpi, curOps, ups := true, byName0, tmpi0, curOps0, ups0;
    IndexedNames(byName0, byMac);
    if r.name in byName {
      var target := byName[r.name];
      HolderIndexed(byName, byMac, r.name);
      FirstFreeIsLeast(byName.Keys, tmpi0 + 1);
      if target.up {
        if !target.downable {
          ok := false;
          return;
        }
        curOps := curOps + [Down(r.name)];
      }
      tmpi := NextTemp(byName, tmpi);
      curOps := curOps + [Rename(r.name, Temp(tmpi))];
      assert p.table[target.mac] == target.Info();
      assert MakeRoom(p, r, curOps0) == Take(Aside(p, target.mac, tmpi), r, curOps);
      byName := SetName(byMac, byName, target, Temp(tmpi));
      if target.up {
        ups := ups + [Up(Temp(tmpi))];
      }
      assert p.(table := TableOf(byMac), tmpi := tmpi, ups := ups) == Aside(p, target.mac, tmpi);
    }
  }

  method PlanOne(byMac: ByMac, byName0: map<string, Nic>, r: Request, tmpi0: int,
                 ops0: seq<Op>, ups0: seq<Op>, errors0: seq<PlanError>)
    returns (byName: map<string, Nic>, tmpi: int, ops: seq<Op>, ups: seq<Op>, errors: seq<PlanError>)
    requires tmpi0 >= -1 && Separate(byMac) && Indexes(byName0, byMac)
    modifies byMac.Values
    ensures Indexes(byName, byMac) && tmpi >= -1
    ensures Plan(TableOf(byMac), tmpi, ops, ups, errors)
            == Step(Plan(old(TableOf(byMac)), tmpi0, ops0, ups0, errors0), r)
  {
    hide Injective, FirstFree, Names, MakeRoom;
    ghost var p := Plan(TableOf(byMac), tmpi0, ops0, ups0, errors0);
    StepKeepsIndex(p, r);
    byName, tmpi, ops, ups, errors := byName0, tmpi0, ops0, ups0, errors0;
    if r.mac in byMac && byMac[r.mac].name == r.name {
      return;
    }
    if r.mac !in byMac || byMac[r.mac].name == "" {
      errors := errors + [NotPresent(r)];
      return;
    }
    var cur := byMac[r.mac];
    var curOps := [];
    if cur.up {
      if !cur.downable {
        errors := errors + [Busy(r, cur.name)];
        return;
      }
      cur.up := false;
      curOps := curOps + [Down(cur.name)];
      ups := ups + [Up(r.name)];
    }
    assert TableOf(byMac) == TakenDown(p, r).table && ups == TakenDown(p, r).ups;
    assert Step(p, r) == MakeRoom(TakenDown(p, r), r, curOps);
    var ok;
    ok, byName, tmpi, curOps, ups := Displace(byMac, byName, r, tmpi, curOps, ups, TakenDown(p, r));
    if !ok {
      errors := errors + [BusyTarget(r, cur.name)];
      return;
    }
    ghost var p1 := TakenDown(p, r).(table := TableOf(byMac), tmpi := tmpi, ups := ups);
    assert Step(p, r) == Take(p1, r, curOps);
    curOps := curOps + [Rename(cur.name, r.name)];
    byName := SetName(byMac, byName, cur, r.name);
    assert TableOf(byMac) == p1.table[r.mac := p1.table[r.mac].(name := r.name)];
    assert ops + curOps == Take(p1, r, curOps[..|curOps| - 1]).ops;
    ops := ops + curOps;
  }
}
