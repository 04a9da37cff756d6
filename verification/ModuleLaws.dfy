/** How often a configured module runs, over any boots and instances. */
module ModuleLaws {
  import opened Options
  import opened Settings
  import opened Semaphores
  import opened SemaphoreLaws
  import opened Runners

  /** The configuration asks for no frequency, or for one that is not known. */
  predicate AsksNothing(m: Module) {
    m.freq.None? || m.freq.value.NoFrequency? || m.freq.value.Other?
  }

  predicate Wants(m: Module, f: Frequency) {
    m.freq == Some(f) || (AsksNothing(m) && m.own == f)
  }

  function InstancePart(iid: string): string {
    var safe := SafeInstance(iid);
    if safe == "" then "" else safe + "/"
  }

  /** The semaphore of a configured module: none if it is to run always; one in the directory of
      the cloud, for all instances, if it is to run once; and otherwise, also when neither the
      configuration nor the module has a frequency that is known, one in that of the instance. */
  lemma KeyOfModule(cloudDir: string, iid: Option<string>, m: Module)
    requires GoodName(m.name)
    ensures Wants(m, PerAlways) ==> Key(cloudDir, CallOf(iid, FixedUp(m))) == None
    ensures Wants(m, PerOnce) ==>
              Key(cloudDir, CallOf(iid, FixedUp(m))) == Some(Base(cloudDir) + "sem" + "/" + ("config_" + CanonName(m.name) + ".once"))
    ensures !Wants(m, PerAlways) && !Wants(m, PerOnce) ==>
              Key(cloudDir, CallOf(iid, FixedUp(m)))
              == if iid.None? then None
                 else Some(Base(cloudDir) + "instances/" + InstancePart(iid.value) + "sem" + "/" + ("config_" + CanonName(m.name)))
  {
    hide CanonName, PathJoin, Base, SafeInstance, InstanceSemDir, CloudSemDir;
    var c := CallOf(iid, FixedUp(m));
    RunNameIsGood(m.name);
    CanonIsGood(c.name);
    if SemDir(cloudDir, iid, c.freq).Some? {
      SemFileIs(cloudDir, iid, c.freq, CanonName(c.name));
      InstanceSemDirIs(cloudDir, if iid.Some? then iid.value else "");
      SemDirGrouped(cloudDir, if iid.Some? then iid.value else "");
    }
    OnceFile("config_" + CanonName(m.name));
  }

  lemma OnceFile(name: string)
    ensures FileName(name, PerOnce) == name + ".once"
  {
  }

  lemma SemDirGrouped(cloudDir: string, iid: string)
    ensures Base(cloudDir) + "instances/" + Tail(SafeInstance(iid)) == Base(cloudDir) + "instances/" + InstancePart(iid) + "sem"
  {
    hide Base, SafeInstance;
  }

  lemma RunNameIsGood(name: string)
    requires GoodName(name)
    ensures GoodName("config-" + name) && CanonName("config-" + name) == "config_" + CanonName(name)
  {
    var s := "config-" + name;
    assert "config-"[6] == '-' && '-' !in "config";
    forall i | 0 <= i < |s| ensures s[i] != '/' && CanonName(s)[i] == ("config_" + CanonName(name))[i] {
      if i >= 7 {
        assert s[i] == name[i - 7];
      }
    }
  }

  // ---------------------------------------------------------------- over boots and instances

  /** One boot: the instance it is of, and the modules that the configuration lists. */
  datatype Boot = Boot(iid: Option<string>, raw: seq<Module>)

  function CallsOfBoot(b: Boot): seq<Call> {
    CallsOf(b.iid, AllFixedUp(b.raw))
  }

  /** What is called over some boots, in order. */
  function History(boots: seq<Boot>): seq<Call> {
    if boots == [] then [] else History(boots[..|boots| - 1]) + CallsOfBoot(boots[|boots| - 1])
  }

  predicate GoodBoots(boots: seq<Boot>) {
    forall b, m :: b in boots && m in b.raw ==> GoodName(m.name) && m.canWrite
  }

  ghost predicate IsListed(boots: seq<Boot>, c: Call) {
    exists b, m :: b in boots && m in b.raw && c == CallOf(b.iid, FixedUp(m))
  }

  lemma {:induction false} HistoryLists(boots: seq<Boot>)
    ensures forall c :: c in History(boots) <==> IsListed(boots, c)
  {
    hide CallOf, FixedUp;
    if boots != [] {
      var init, last := boots[..|boots| - 1], boots[|boots| - 1];
      HistoryLists(init);
      assert boots == init + [last];
      forall c ensures c in CallsOfBoot(last) <==> exists m :: m in last.raw && c == CallOf(last.iid, FixedUp(m)) {
        InCallsOfBoot(last, c);
      }
    }
  }

  lemma InCallsOfBoot(b: Boot, c: Call)
    ensures c in CallsOfBoot(b) <==> exists m :: m in b.raw && c == CallOf(b.iid, FixedUp(m))
  {
    hide CallOf, FixedUp;
    var calls := CallsOfBoot(b);
    if c in calls {
      var i :| 0 <= i < |calls| && calls[i] == c;
      assert b.raw[i] in b.raw;
    }
    if m :| m in b.raw && c == CallOf(b.iid, FixedUp(m)) {
      var i :| 0 <= i < |b.raw| && b.raw[i] == m;
      assert calls[i] == c;
    }
  }

  lemma ListedLasts(boots: seq<Boot>, c: Call)
    requires GoodBoots(boots) && IsListed(boots, c)
    ensures GoodName(c.name) && Lasting(c)
  {
    var b, m :| b in boots && m in b.raw && c == CallOf(b.iid, FixedUp(m));
    RunNameIsGood(m.name);
  }

  ghost predicate AskedFor(cloudDir: string, boots: seq<Boot>, key: string) {
    exists b, m :: b in boots && m in b.raw && Key(cloudDir, CallOf(b.iid, FixedUp(m))) == Some(key)
  }

  /** Over any boots and instances, with semaphores that can be written: whatever takes a semaphore
      that was not there at the start runs exactly once, even when it fails. With `KeyOfModule`: a
      module to run once runs once over all instances, and one for each instance once in each. */
  lemma ModulesRunOnce(cloudDir: string, files: Files, boots: seq<Boot>, key: string)
    requires GoodBoots(boots)
    requires forall c :: c in History(boots) && Key(cloudDir, c) == Some(key) ==> !BarredAtStart(cloudDir, files, c)
    ensures Executions(cloudDir, files, History(boots), Some(key)) == if AskedFor(cloudDir, boots, key) then 1 else 0
  {
    hide Key, BarredAtStart, CallOf, FixedUp, Executions, GoodBoots, History, Lasting;
    HistoryLists(boots);
    forall c | c in History(boots) ensures GoodName(c.name) && Lasting(c) {
      ListedLasts(boots, c);
    }
    RunsExactlyOnce(cloudDir, files, History(boots), key);
    if Asked(cloudDir, History(boots), Some(key)) {
      var c :| c in History(boots) && Key(cloudDir, c) == Some(key);
      assert IsListed(boots, c);
    }
    if AskedFor(cloudDir, boots, key) {
      var b, m :| b in boots && m in b.raw && Key(cloudDir, CallOf(b.iid, FixedUp(m))) == Some(key);
      assert IsListed(boots, CallOf(b.iid, FixedUp(m)));
    }
  }

  /** A module to run always runs in every list, on every boot, whatever has run before. */
  lemma AlwaysExecutes(cloudDir: string, files: Files, calls: seq<Call>, i: nat, iid: Option<string>, m: Module)
    requires i < |calls| && calls[i] == CallOf(iid, FixedUp(m)) && GoodName(m.name) && Wants(m, PerAlways)
    ensures Executed(OutcomeAt(cloudDir, files, calls, i))
  {
    hide CallOf, FixedUp, OutcomeAt, Wants;
    KeyOfModule(cloudDir, iid, m);
    KeylessRuns(cloudDir, files, calls, i);
  }

  lemma NeverCleared(iid: Option<string>, m: Module)
    ensures !CallOf(iid, m).clearOnFail
  {
  }

  /** What has run once for all instances, well or not, does not run again for any of them. */
  lemma OnceBarsAllInstances(cloudDir: string, files: Files, calls: seq<Call>, i: nat, j: nat, m: Module)
    requires j < i < |calls| && (forall c :: c in calls ==> GoodName(c.name)) && GoodName(m.name) && Wants(m, PerOnce)
    requires calls[i] == CallOf(calls[i].iid, FixedUp(m)) && calls[j] == CallOf(calls[j].iid, FixedUp(m))
    requires Executed(OutcomeAt(cloudDir, files, calls, j))
    ensures OutcomeAt(cloudDir, files, calls, i) == AlreadyRan
  {
    hide CallOf, FixedUp, Wants, FilesAfter;
    NeverCleared(calls[j].iid, FixedUp(m));
    KeyOfModule(cloudDir, calls[i].iid, m);
    KeyOfModule(cloudDir, calls[j].iid, m);
    assert LeftBy(cloudDir, files, calls, j, Key(cloudDir, calls[i]).value);
    HasRunIff(cloudDir, files, calls, i);
  }

  /** What becomes of the i-th module of a list that is run with some files there. */
  ghost function OutcomeOf(cloudDir: string, files: Files, iid: Option<string>, ms: seq<Module>, i: nat): Outcome
    requires i < |ms|
  {
    OutcomeAt(cloudDir, files, CallsOf(iid, ms), i)
  }

  /** Reported as failed are the modules that neither ran well nor had run before, in the order of
      the list. */
  lemma {:induction false} FailuresIff(cloudDir: string, files: Files, iid: Option<string>, ms: seq<Module>, name: string)
    ensures name in Failures(cloudDir, files, iid, ms) <==>
            exists i :: 0 <= i < |ms| && ms[i].name == name && !OutcomeOf(cloudDir, files, iid, ms, i).Ran?
                        && !OutcomeOf(cloudDir, files, iid, ms, i).AlreadyRan?
  {
    hide RunOne, CallOf, FilesAfter;
    if ms != [] {
      var n := |ms| - 1;
      FailuresIff(cloudDir, files, iid, ms[..n], name);
      assert CallsOf(iid, ms)[..n] == CallsOf(iid, ms[..n]);
      forall i | 0 <= i < n ensures OutcomeOf(cloudDir, files, iid, ms[..n], i) == OutcomeOf(cloudDir, files, iid, ms, i) {
        assert CallsOf(iid, ms[..n])[..i] == CallsOf(iid, ms)[..i];
      }
    }
  }

  /** A module that executes and fails is among them, and so is one whose semaphore is not there
      and cannot be written. */
  lemma FailureShows(cloudDir: string, files: Files, iid: Option<string>, ms: seq<Module>, i: nat)
    requires i < |ms| && (forall m :: m in ms ==> GoodName(m.name))
    requires ms[i].fails || (!ms[i].canWrite && Key(cloudDir, CallOf(iid, ms[i])).Some?)
    ensures ms[i].name in Failures(cloudDir, files, iid, ms) || OutcomeOf(cloudDir, files, iid, ms, i) == AlreadyRan
  {
    hide FilesAfter, HasRun, Failures, FrequencyOf;
    FailuresIff(cloudDir, files, iid, ms, ms[i].name);
    assert CallsOf(iid, ms)[i] == CallOf(iid, ms[i]);
  }
}
