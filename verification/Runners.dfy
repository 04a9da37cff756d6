/** The objects that take semaphores, on a file system they share. */
module Runners {
  import opened Options
  import opened Settings
  import opened Semaphores

  class FileSystem {
    var files: Files

    constructor (files: Files)
      ensures this.files == files
    {
      this.files := files;
    }
  }

  class FileSemaphores {
    const semPath: string
    const fs: FileSystem

    constructor (semPath: string, fs: FileSystem)
      ensures this.semPath == semPath && this.fs == fs
    {
      this.semPath, this.fs := semPath, fs;
    }

    method HasRun(name: string, f: Frequency) returns (r: bool)
      ensures r == Semaphores.HasRun(fs.files, semPath, name, f)
    {
      if f.NoFrequency? || f.PerAlways? {
        return false;
      }
      var cname := CanonName(name);
      if SemFile(semPath, cname, f) in fs.files {
        return true;
      }
      return cname != name && SemFile(semPath, name, f) in fs.files;
    }

    /** Writes the semaphore; false when it has run or cannot be written. */
    method Acquire(name: string, f: Frequency, canWrite: bool) returns (locked: bool)
      modifies fs
      ensures locked == (!Semaphores.HasRun(old(fs.files), semPath, name, f) && canWrite)
      ensures fs.files == old(fs.files) + if locked then {SemFile(semPath, name, f)} else {}
    {
      var ran := HasRun(name, f);
      if ran || !canWrite {
        return false;
      }
      fs.files := fs.files + {SemFile(semPath, name, f)};
      return true;
    }

    method Clear(name: string, f: Frequency)
      modifies fs
      ensures fs.files == old(fs.files) - {SemFile(semPath, CanonName(name), f)}
    {
      fs.files := fs.files - {SemFile(semPath, CanonName(name), f)};
    }
  }

  class Runner {
    const cloudDir: string
    const fs: FileSystem
    var sems: map<string, FileSemaphores>

    ghost predicate Valid()
      reads this
    {
      forall p :: p in sems ==> sems[p].semPath == p && sems[p].fs == fs
    }

    constructor (cloudDir: string, fs: FileSystem)
      ensures this.cloudDir == cloudDir && this.fs == fs && Valid()
    {
      this.cloudDir, this.fs := cloudDir, fs;
      sems := map[];
    }

    method GetSem(iid: Option<string>, f: Frequency) returns (sem: FileSemaphores?)
      requires Valid()
      modifies this`sems
      ensures Valid()
      ensures sem == null <==> SemDir(cloudDir, iid, f).None?
      ensures sem != null ==> Some(sem.semPath) == SemDir(cloudDir, iid, f) && sem.fs == fs
    {
      var dir := SemDir(cloudDir, iid, f);
      if dir.None? {
        return null;
      }
      if dir.value !in sems {
        var s := new FileSemaphores(dir.value, fs);
        sems := sems[dir.value := s];
      }
      return sems[dir.value];
    }

    /** Runs a functor under its semaphore. `c` says how the functor and the
        writing of the file go. */
    method Run(c: Call) returns (o: Outcome)
      requires Valid()
      modifies this`sems, fs
      ensures Valid()
      ensures fs.files == RunOne(cloudDir, old(fs.files), c).0 && o == RunOne(cloudDir, old(fs.files), c).1
    {
      var sem := GetSem(c.iid, c.freq);
      if sem == null {
        return if c.fails then Raised else Ran;
      }
      var ran := sem.HasRun(c.name, c.freq);
      if ran {
        return AlreadyRan;
      }
      CanonHasNoDash(c.name);
      var locked := sem.Acquire(CanonName(c.name), c.freq, c.canWrite);
      if locked && !c.fails {
        return Ran;
      }
      if c.clearOnFail {
        sem.Clear(CanonName(c.name), c.freq);
      }
      return if locked then Raised else LockFailed;
    }
  }

  // ---------------------------------------------------------------- modules

  /** A configured module: the frequency asked for, its own, and how its run goes. */
  datatype Module = Module(name: string, freq: Option<Frequency>, own: Frequency, fails: bool, canWrite: bool)

  /** Which frequency a module runs with: the one asked for, else its own, else
      once per instance. */
  function FrequencyOf(m: Module): (f: Frequency)
    ensures f.PerInstance? || f.PerAlways? || f.PerOnce?
  {
    var f := if m.freq.None? || m.freq.value.NoFrequency? then m.own else m.freq.value;
    if f.PerInstance? || f.PerAlways? || f.PerOnce? then f else PerInstance
  }

  function CallOf(iid: Option<string>, m: Module): Call {
    Call(iid, "config-" + m.name, FrequencyOf(m), false, m.fails, m.canWrite)
  }

  function CallsOf(iid: Option<string>, ms: seq<Module>): seq<Call> {
    seq(|ms|, i requires 0 <= i < |ms| => CallOf(iid, ms[i]))
  }

  function NamesOf(ms: seq<Module>): seq<string> {
    seq(|ms|, i requires 0 <= i < |ms| => ms[i].name)
  }

  /** The modules whose run raised, in order. */
  ghost function Failures(cloudDir: string, files: Files, iid: Option<string>, ms: seq<Module>): seq<string> {
    if ms == [] then []
    else
      var n := |ms| - 1;
      var o := RunOne(cloudDir, FilesAfter(cloudDir, files, CallsOf(iid, ms[..n])), CallOf(iid, ms[n])).1;
      Failures(cloudDir, files, iid, ms[..n]) + if o.Raised? || o.LockFailed? then [ms[n].name] else []
  }

  lemma ModulesStep(cloudDir: string, files: Files, iid: Option<string>, ms: seq<Module>, i: nat)
    requires i < |ms|
    ensures var before := FilesAfter(cloudDir, files, CallsOf(iid, ms[..i])); var (after, o) := RunOne(cloudDir, before, CallOf(iid, ms[i]));
            && FilesAfter(cloudDir, files, CallsOf(iid, ms[..i + 1])) == after
            && Failures(cloudDir, files, iid, ms[..i + 1])
               == Failures(cloudDir, files, iid, ms[..i]) + if o.Raised? || o.LockFailed? then [ms[i].name] else []
    ensures NamesOf(ms[..i + 1]) == NamesOf(ms[..i]) + [ms[i].name]
  {
    hide RunOne, CallOf;
    assert ms[..i + 1][..i] == ms[..i];
    assert CallsOf(iid, ms[..i + 1])[..i] == CallsOf(iid, ms[..i]);
  }

  lemma NoModules(cloudDir: string, files: Files, iid: Option<string>, ms: seq<Module>)
    ensures FilesAfter(cloudDir, files, CallsOf(iid, ms[..0])) == files
    ensures Failures(cloudDir, files, iid, ms[..0]) == [] && NamesOf(ms[..0]) == []
  {
  }

  method RunModules(r: Runner, iid: Option<string>, mods: seq<Module>) returns (whichRan: seq<string>, failures: seq<string>)
    requires r.Valid()
    modifies r`sems, r.fs
    ensures r.Valid() && r.fs.files == FilesAfter(r.cloudDir, old(r.fs.files), CallsOf(iid, mods))
    ensures whichRan == NamesOf(mods)
    ensures failures == Failures(r.cloudDir, old(r.fs.files), iid, mods)
  {
    hide RunOne, CallOf, CallsOf, FilesAfter, Failures, NamesOf;
    whichRan, failures := [], [];
    NoModules(r.cloudDir, r.fs.files, iid, mods);
    var i := 0;
    while i < |mods|
      invariant 0 <= i <= |mods| && r.Valid()
      invariant r.fs.files == FilesAfter(r.cloudDir, old(r.fs.files), CallsOf(iid, mods[..i]))
      invariant whichRan == NamesOf(mods[..i])
      invariant failures == Failures(r.cloudDir, old(r.fs.files), iid, mods[..i])
    {
      ModulesStep(r.cloudDir, old(r.fs.files), iid, mods, i);
      whichRan := whichRan + [mods[i].name];
      var o := r.Run(CallOf(iid, mods[i]));
      if o.Raised? || o.LockFailed? {
        failures := failures + [mods[i].name];
      }
      i := i + 1;
    }
    assert mods[..i] == mods;
  }

  /** A frequency that is not known counts as none asked for. */
  function FixedUp(m: Module): Module {
    if m.freq.Some? && m.freq.value.Other? then m.(freq := None) else m
  }

  function AllFixedUp(mods: seq<Module>): (r: seq<Module>)
    ensures |r| == |mods| && forall i :: 0 <= i < |r| ==> r[i] == FixedUp(mods[i])
  {
    seq(|mods|, i requires 0 <= i < |mods| => FixedUp(mods[i]))
  }

  method FixupModules(raw: seq<Module>) returns (mostly: seq<Module>)
    ensures mostly == AllFixedUp(raw)
  {
    mostly := [];
    for i := 0 to |raw|
      invariant mostly == AllFixedUp(raw)[..i]
    {
      var m := raw[i];
      if m.freq.Some? && m.freq.value.Other? {
        m := m.(freq := None);
      }
      mostly := mostly + [m];
    }
  }

  /** Runs the modules that the configuration lists in one section. */
  method RunSection(r: Runner, iid: Option<string>, raw: seq<Module>) returns (whichRan: seq<string>, failures: seq<string>)
    requires r.Valid()
    modifies r`sems, r.fs
    ensures r.Valid() && r.fs.files == FilesAfter(r.cloudDir, old(r.fs.files), CallsOf(iid, AllFixedUp(raw)))
    ensures whichRan == NamesOf(AllFixedUp(raw))
    ensures failures == Failures(r.cloudDir, old(r.fs.files), iid, AllFixedUp(raw))
  {
    var mostly := FixupModules(raw);
    whichRan, failures := RunModules(r, iid, mostly);
  }
}
