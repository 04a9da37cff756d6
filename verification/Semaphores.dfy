/** Run-once semaphores: a file whose presence says that something has run. */
module Semaphores {
  import opened Options
  import opened Settings
  import opened Strings

  type Files = set<string>

  function FrequencyName(f: Frequency): string {
    match f
    case NoFrequency => ""
    case PerInstance => "once-per-instance"
    case PerAlways => "always"
    case PerOnce => "once"
    case Other(name) => name
  }

  // ---------------------------------------------------------------- paths

  /** `os.path.join` of two components */
  function PathJoin(a: string, b: string): string {
    if StartsWith(b, "/") then b
    else if a == "" || EndsWith(a, "/") then a + b
    else a + "/" + b
  }

  function CanonName(name: string): string {
    ReplaceChar(name, '-', '_')
  }

  function SafeInstance(iid: string): string {
    ReplaceChar(iid, '/', '_')
  }

  function CloudSemDir(cloudDir: string): string {
    PathJoin(cloudDir, "sem")
  }

  function InstanceSemDir(cloudDir: string, iid: string): string {
    PathJoin(PathJoin(PathJoin(cloudDir, "instances"), SafeInstance(iid)), "sem")
  }

  function FileName(name: string, f: Frequency): string {
    if f.NoFrequency? || f.PerInstance? then name else name + "." + FrequencyName(f)
  }

  function SemFile(dir: string, name: string, f: Frequency): string {
    PathJoin(dir, FileName(name, f))
  }

  /** The directory for a frequency; `None` when there is no semaphore to take:
      always, no known frequency, or no instance to speak of. */
  function SemDir(cloudDir: string, iid: Option<string>, f: Frequency): Option<string> {
    match f
    case PerInstance => (match iid case None => None case Some(i) => Some(InstanceSemDir(cloudDir, i)))
    case PerOnce => Some(CloudSemDir(cloudDir))
    case _ => None
  }

  // ---------------------------------------------------------------- one call

  function HasRun(files: Files, dir: string, name: string, f: Frequency): bool {
    !f.NoFrequency? && !f.PerAlways?
    && (SemFile(dir, CanonName(name), f) in files
        || (CanonName(name) != name && SemFile(dir, name, f) in files))
  }

  /** A call of `Runners.run`: who asks for what, and how its parts go. */
  datatype Call = Call(iid: Option<string>, name: string, freq: Frequency, clearOnFail: bool, fails: bool, canWrite: bool)

  datatype Outcome = AlreadyRan | Ran | Raised | LockFailed

  predicate Executed(o: Outcome) {
    o.Ran? || o.Raised?
  }

  function RunOne(cloudDir: string, files: Files, c: Call): (Files, Outcome) {
    match SemDir(cloudDir, c.iid, c.freq)
    case None => (files, if c.fails then Raised else Ran)
    case Some(dir) =>
      var sem := SemFile(dir, CanonName(c.name), c.freq);
      if HasRun(files, dir, c.name, c.freq) then (files, AlreadyRan)
      else if !c.canWrite then (if c.clearOnFail then files - {sem} else files, LockFailed)
      else if c.fails then (if c.clearOnFail then files + {sem} - {sem} else files + {sem}, Raised)
      else (files + {sem}, Ran)
  }

  // ---------------------------------------------------------------- histories

  /** The files after a history of calls, over any number of boots. */
  ghost function FilesAfter(cloudDir: string, files: Files, calls: seq<Call>): Files {
    if calls == [] then files
    else RunOne(cloudDir, FilesAfter(cloudDir, files, calls[..|calls| - 1]), calls[|calls| - 1]).0
  }

  ghost function OutcomeAt(cloudDir: string, files: Files, calls: seq<Call>, i: nat): Outcome
    requires i < |calls|
  {
    RunOne(cloudDir, FilesAfter(cloudDir, files, calls[..i]), calls[i]).1
  }

  /** The semaphore a call takes. */
  function Key(cloudDir: string, c: Call): Option<string> {
    match SemDir(cloudDir, c.iid, c.freq)
    case None => None
    case Some(dir) => Some(SemFile(dir, CanonName(c.name), c.freq))
  }

  /** Whether an execution leaves its semaphore behind. */
  predicate Sticks(c: Call, o: Outcome) {
    o.Ran? || (o.Raised? && !c.clearOnFail)
  }

  predicate GoodName(name: string) {
    name != "" && '/' !in name
  }

  /** Whether a call finds itself barred by the files there were at the start. */
  ghost predicate BarredAtStart(cloudDir: string, files: Files, c: Call) {
    var dir := SemDir(cloudDir, c.iid, c.freq);
    dir.Some? && HasRun(files, dir.value, c.name, c.freq)
  }

  /** The j-th call left this semaphore behind. */
  ghost predicate LeftBy(cloudDir: string, files: Files, calls: seq<Call>, j: nat, p: string)
    requires j < |calls|
  {
    Key(cloudDir, calls[j]) == Some(p) && Sticks(calls[j], OutcomeAt(cloudDir, files, calls, j))
  }

  /** Some call before the i-th took the same semaphore and left it behind. */
  ghost predicate TakenBefore(cloudDir: string, files: Files, calls: seq<Call>, i: nat)
    requires i < |calls|
  {
    var key := Key(cloudDir, calls[i]);
    key.Some? && exists j :: 0 <= j < i && LeftBy(cloudDir, files, calls, j, key.value)
  }

  // ---------------------------------------------------------------- paths are distinct

  lemma CanonHasNoDash(name: string)
    ensures '-' !in CanonName(name) && CanonName(CanonName(name)) == CanonName(name)
    ensures '-' in name <==> CanonName(name) != name
  {
    var c := CanonName(name);
    forall i | 0 <= i < |c| ensures c[i] != '-' && CanonName(c)[i] == c[i] {}
    if '-' in name {
      var i :| 0 <= i < |name| && name[i] == '-';
      assert c[i] != name[i];
    } else {
      forall i | 0 <= i < |name| ensures c[i] == name[i] {
        assert name[i] in name;
      }
    }
  }

  lemma LastSlash(a: string, f: string, b: string, g: string)
    requires a + "/" + f == b + "/" + g && '/' !in f && '/' !in g
    ensures a == b && f == g
  {
    var s := a + "/" + f;
    assert s[|a|] == '/' && s[|b|] == '/';
    assert |a| == |b|;
    assert a == s[..|a|] && f == s[|a| + 1..];
  }

  lemma SafeHasNoSlash(iid: string)
    ensures '/' !in SafeInstance(iid)
  {
    var s := SafeInstance(iid);
    forall i | 0 <= i < |s| ensures s[i] != '/' {}
  }

  function Base(cloudDir: string): string {
    if cloudDir == "" || EndsWith(cloudDir, "/") then cloudDir else cloudDir + "/"
  }

  function Tail(safe: string): string {
    safe + (if safe == "" then "" else "/") + "sem"
  }

  lemma TailInjective(a: string, b: string)
    requires Tail(a) == Tail(b)
    ensures a == b
  {
    assert |a| == |b|;
    assert a == Tail(a)[..|a|] && b == Tail(b)[..|b|];
  }

  lemma JoinPlain(a: string, b: string)
    requires b == "" || b[0] != '/'
    ensures PathJoin(a, b) == Base(a) + b
  {
  }

  lemma BaseOpen(p: string, name: string)
    requires name != "" && name[|name| - 1] != '/'
    ensures Base(p + name) == p + name + "/"
  {
    var s := p + name;
    assert s[|s| - 1] == name[|name| - 1];
    assert s[|s| - 1..][0] == s[|s| - 1];
  }

  lemma BaseClosed(p: string)
    ensures Base(p + "/") == p + "/"
  {
    assert (p + "/")[|p|..] == "/";
  }

  lemma InstanceSemDirIs(cloudDir: string, iid: string)
    ensures InstanceSemDir(cloudDir, iid)
            == Base(cloudDir) + "instances/" + Tail(SafeInstance(iid))
    ensures CloudSemDir(cloudDir) == Base(cloudDir) + "sem"
  {
    hide PathJoin, Base, SafeInstance;
    var safe, root := SafeInstance(iid), Base(cloudDir) + "instances";
    assert root + "/" == Base(cloudDir) + "instances/";
    SafeHasNoSlash(iid);
    assert safe != "" ==> safe[0] in safe && safe[|safe| - 1] in safe;
    JoinPlain(cloudDir, "instances");
    JoinPlain(cloudDir, "sem");
    BaseOpen(Base(cloudDir), "instances");
    JoinPlain(root, safe);
    JoinPlain(root + "/" + safe, "sem");
    if safe == "" {
      BaseClosed(root);
      assert root + "/" + safe == root + "/";
      assert Tail(safe) == "sem";
    } else {
      BaseOpen(root + "/", safe);
      assert root + "/" + safe + "/" + "sem" == root + "/" + Tail(safe);
    }
  }

  lemma SemDirsDistinct(cloudDir: string, i: string, j: string)
    ensures InstanceSemDir(cloudDir, i) != CloudSemDir(cloudDir)
    ensures InstanceSemDir(cloudDir, i) == InstanceSemDir(cloudDir, j) <==> SafeInstance(i) == SafeInstance(j)
  {
    InstanceSemDirIs(cloudDir, i);
    InstanceSemDirIs(cloudDir, j);
    var pre := Base(cloudDir) + "instances/";
    var x, y := Tail(SafeInstance(i)), Tail(SafeInstance(j));
    if pre + x == pre + y {
      assert x == (pre + x)[|pre|..] && y == (pre + y)[|pre|..];
      TailInjective(SafeInstance(i), SafeInstance(j));
    }
  }
}
