/** What semaphores guarantee over any history of calls, boots and instances. */
module SemaphoreLaws {
  import opened Options
  import opened Settings
  import opened Semaphores

  lemma SemDirEnds(cloudDir: string, iid: Option<string>, f: Frequency)
    requires SemDir(cloudDir, iid, f).Some?
    ensures Base(SemDir(cloudDir, iid, f).value) == SemDir(cloudDir, iid, f).value + "/"
  {
    hide InstanceSemDir, CloudSemDir, Base, SafeInstance;
    if f.PerInstance? {
      InstanceSemDirIs(cloudDir, iid.value);
      var safe := SafeInstance(iid.value);
      var pre := Base(cloudDir) + "instances/" + (safe + if safe == "" then "" else "/");
      assert pre + "sem" == InstanceSemDir(cloudDir, iid.value);
      BaseOpen(pre, "sem");
    } else {
      InstanceSemDirIs(cloudDir, "");
      BaseOpen(Base(cloudDir), "sem");
    }
  }

  lemma FileNameIs(name: string, f: Frequency)
    requires GoodName(name) && (f.PerInstance? || f.PerOnce?)
    ensures var file := FileName(name, f); '/' !in file && file != "" && file[0] != '/'
  {
    assert name[0] in name;
    assert '/' !in ".once";
    assert FileName(name, PerOnce) == name + ".once";
  }

  /** The directory has the form `.../sem`, so a file name can be told off its path. */
  lemma SemFileIs(cloudDir: string, iid: Option<string>, f: Frequency, name: string)
    requires SemDir(cloudDir, iid, f).Some? && GoodName(name)
    ensures var dir := SemDir(cloudDir, iid, f).value;
            SemFile(dir, name, f) == dir + "/" + FileName(name, f) && '/' !in FileName(name, f)
  {
    hide InstanceSemDir, CloudSemDir, Base, FileName, PathJoin, GoodName;
    SemDirEnds(cloudDir, iid, f);
    FileNameIs(name, f);
    JoinPlain(SemDir(cloudDir, iid, f).value, FileName(name, f));
  }

  lemma CanonIsGood(name: string)
    requires GoodName(name)
    ensures GoodName(CanonName(name))
  {
    var c := CanonName(name);
    forall i | 0 <= i < |c| ensures c[i] != '/' {
      assert name[i] in name;
    }
  }

  /** Two calls take the same semaphore exactly when they have the same frequency,
      the same name up to dashes, and for once-per-instance the same instance. */
  lemma SameKeyIff(cloudDir: string, c: Call, d: Call)
    requires GoodName(c.name) && GoodName(d.name)
    requires Key(cloudDir, c).Some? && Key(cloudDir, d).Some?
    ensures Key(cloudDir, c) == Key(cloudDir, d) <==>
            && c.freq == d.freq && CanonName(c.name) == CanonName(d.name)
            && (c.freq.PerInstance? ==> SafeInstance(c.iid.value) == SafeInstance(d.iid.value))
  {
    CanonIsGood(c.name);
    CanonIsGood(d.name);
    SemFileIs(cloudDir, c.iid, c.freq, CanonName(c.name));
    SemFileIs(cloudDir, d.iid, d.freq, CanonName(d.name));
    var i := if c.freq.PerInstance? then c.iid.value else "";
    var j := if d.freq.PerInstance? then d.iid.value else "";
    SemDirsDistinct(cloudDir, i, j);
    SemDirsDistinct(cloudDir, j, i);
    if Key(cloudDir, c) == Key(cloudDir, d) {
      LastSlash(SemDir(cloudDir, c.iid, c.freq).value, FileName(CanonName(c.name), c.freq),
                SemDir(cloudDir, d.iid, d.freq).value, FileName(CanonName(d.name), d.freq));
      if c.freq.PerOnce? {
        assert CanonName(c.name) == FileName(CanonName(c.name), c.freq)[..|CanonName(c.name)|];
        assert CanonName(d.name) == FileName(CanonName(d.name), d.freq)[..|CanonName(d.name)|];
      }
    }
  }

  /** A name that still has a dash is never the file of a semaphore being taken. */
  lemma RawIsNoKey(cloudDir: string, c: Call, d: Call)
    requires GoodName(c.name) && GoodName(d.name) && CanonName(c.name) != c.name
    requires SemDir(cloudDir, c.iid, c.freq).Some?
    ensures Key(cloudDir, d) != Some(SemFile(SemDir(cloudDir, c.iid, c.freq).value, c.name, c.freq))
  {
    hide SemFile, FileName, CanonName, GoodName;
    if Key(cloudDir, d).Some? {
      var dir, dir' := SemDir(cloudDir, c.iid, c.freq).value, SemDir(cloudDir, d.iid, d.freq).value;
      var raw, canon := FileName(c.name, c.freq), FileName(CanonName(d.name), d.freq);
      CanonIsGood(d.name);
      SemFileIs(cloudDir, c.iid, c.freq, c.name);
      SemFileIs(cloudDir, d.iid, d.freq, CanonName(d.name));
      CanonHasNoDash(c.name);
      CanonHasNoDash(d.name);
      DashInFile(c.name, c.freq);
      DashInFile(CanonName(d.name), d.freq);
      if dir + "/" + raw == dir' + "/" + canon {
        LastSlash(dir, raw, dir', canon);
      }
    }
  }

  lemma DashInFile(name: string, f: Frequency)
    requires f.PerInstance? || f.PerOnce?
    ensures '-' in FileName(name, f) <==> '-' in name
  {
    assert '-' !in ".once";
    assert f.PerOnce? ==> FileName(name, f) == name + ".once";
  }

  lemma RunOneFiles(cloudDir: string, files: Files, c: Call, p: string)
    ensures var (files', o) := RunOne(cloudDir, files, c);
            p in files' <==> p in files || (Key(cloudDir, c) == Some(p) && Sticks(c, o))
  {
  }

  lemma LeftBySame(cloudDir: string, files: Files, calls: seq<Call>, n: nat, j: nat, p: string)
    requires j < n <= |calls|
    ensures LeftBy(cloudDir, files, calls[..n], j, p) == LeftBy(cloudDir, files, calls, j, p)
  {
    assert calls[..n][..j] == calls[..j];
  }

  /** A file is there exactly when it was at the start or a call left it behind. */
  lemma {:induction false} FilesAfterIff(cloudDir: string, files: Files, calls: seq<Call>, p: string)
    ensures p in FilesAfter(cloudDir, files, calls)
            <==> p in files || exists j :: 0 <= j < |calls| && LeftBy(cloudDir, files, calls, j, p)
  {
    hide RunOne, Key;
    if calls != [] {
      var n := |calls| - 1;
      FilesAfterIff(cloudDir, files, calls[..n], p);
      forall j | 0 <= j < n ensures LeftBy(cloudDir, files, calls[..n], j, p) == LeftBy(cloudDir, files, calls, j, p) {
        LeftBySame(cloudDir, files, calls, n, j, p);
      }
      RunOneFiles(cloudDir, FilesAfter(cloudDir, files, calls[..n]), calls[n], p);
      assert p in FilesAfter(cloudDir, files, calls)
        <==> p in FilesAfter(cloudDir, files, calls[..n]) || LeftBy(cloudDir, files, calls, n, p);
    }
  }

  lemma KeyThereIff(cloudDir: string, files: Files, calls: seq<Call>, i: nat)
    requires i < |calls| && Key(cloudDir, calls[i]).Some?
    ensures var key := Key(cloudDir, calls[i]).value;
            key in FilesAfter(cloudDir, files, calls[..i]) <==> key in files || TakenBefore(cloudDir, files, calls, i)
  {
    hide RunOne, Key, FilesAfter;
    var key := Key(cloudDir, calls[i]).value;
    FilesAfterIff(cloudDir, files, calls[..i], key);
    forall j | 0 <= j < i ensures LeftBy(cloudDir, files, calls[..i], j, key) == LeftBy(cloudDir, files, calls, j, key) {
      LeftBySame(cloudDir, files, calls, i, j, key);
    }
  }

  lemma RawThereIff(cloudDir: string, files: Files, calls: seq<Call>, c: Call, raw: string)
    requires GoodName(c.name) && CanonName(c.name) != c.name && forall d :: d in calls ==> GoodName(d.name)
    requires SemDir(cloudDir, c.iid, c.freq).Some?
    requires raw == SemFile(SemDir(cloudDir, c.iid, c.freq).value, c.name, c.freq)
    ensures raw in FilesAfter(cloudDir, files, calls) <==> raw in files
  {
    hide RunOne, Key, FilesAfter;
    FilesAfterIff(cloudDir, files, calls, raw);
    forall j | 0 <= j < |calls| ensures !LeftBy(cloudDir, files, calls, j, raw) {
      RawIsNoKey(cloudDir, c, calls[j]);
    }
  }

  /** When a call finds that it has run: its file, dashed or not, was there at the
      start, or an earlier call with the same semaphore left it behind. */
  lemma HasRunIff(cloudDir: string, files: Files, calls: seq<Call>, i: nat)
    requires i < |calls| && SemDir(cloudDir, calls[i].iid, calls[i].freq).Some?
    requires forall c :: c in calls ==> GoodName(c.name)
    ensures HasRun(FilesAfter(cloudDir, files, calls[..i]), SemDir(cloudDir, calls[i].iid, calls[i].freq).value,
                   calls[i].name, calls[i].freq)
            <==> BarredAtStart(cloudDir, files, calls[i]) || TakenBefore(cloudDir, files, calls, i)
  {
    hide FilesAfter, SemFile, TakenBefore;
    var c := calls[i];
    assert c in calls;
    KeyThereIff(cloudDir, files, calls, i);
    if CanonName(c.name) != c.name {
      RawThereIff(cloudDir, files, calls[..i], c, SemFile(SemDir(cloudDir, c.iid, c.freq).value, c.name, c.freq));
    }
  }

  /** Exactly when a call executes: always without a semaphore; else when the file
      can be written, was not there at the start, and no earlier call left it. */
  lemma ExecutesIff(cloudDir: string, files: Files, calls: seq<Call>, i: nat)
    requires i < |calls| && forall c :: c in calls ==> GoodName(c.name)
    ensures Executed(OutcomeAt(cloudDir, files, calls, i)) <==>
            || Key(cloudDir, calls[i]).None?
            || (calls[i].canWrite && !BarredAtStart(cloudDir, files, calls[i]) && !TakenBefore(cloudDir, files, calls, i))
  {
    if Key(cloudDir, calls[i]).Some? {
      HasRunIff(cloudDir, files, calls, i);
    }
  }

  // ---------------------------------------------------------------- once

  /** How many calls with this semaphore execute. */
  ghost function Executions(cloudDir: string, files: Files, calls: seq<Call>, key: Option<string>): nat {
    if calls == [] then 0
    else
      Executions(cloudDir, files, calls[..|calls| - 1], key)
      + if Key(cloudDir, calls[|calls| - 1]) == key && Executed(OutcomeAt(cloudDir, files, calls, |calls| - 1)) then 1 else 0
  }

  ghost predicate Asked(cloudDir: string, calls: seq<Call>, key: Option<string>) {
    exists c :: c in calls && Key(cloudDir, c) == key
  }

  /** A call whose semaphore can be written and is not taken away again. */
  predicate Lasting(c: Call) {
    c.canWrite && !(c.fails && c.clearOnFail)
  }

  lemma AskedMore(cloudDir: string, calls: seq<Call>, key: Option<string>)
    requires calls != []
    ensures Asked(cloudDir, calls, key)
            <==> Asked(cloudDir, calls[..|calls| - 1], key) || Key(cloudDir, calls[|calls| - 1]) == key
  {
    hide Key;
    assert calls == calls[..|calls| - 1] + [calls[|calls| - 1]];
    forall c ensures c in calls <==> c in calls[..|calls| - 1] || c == calls[|calls| - 1] {}
  }

  lemma {:induction false} ExecutionsOfPrefix(cloudDir: string, files: Files, calls: seq<Call>, n: nat, key: Option<string>)
    requires n == |calls| - 1
    ensures Executions(cloudDir, files, calls, key) == Executions(cloudDir, files, calls[..n], key)
            + if Key(cloudDir, calls[n]) == key && Executed(OutcomeAt(cloudDir, files, calls, n)) then 1 else 0
  {
  }

  /** Over any history of lasting calls, in any order and over any boots and
      instances: what takes a semaphore that was not there at the start executes
      once, however often it is asked for. */
  lemma {:induction false} RunsExactlyOnce(cloudDir: string, files: Files, calls: seq<Call>, key: string)
    requires forall c :: c in calls ==> GoodName(c.name)
    requires forall c :: c in calls && Key(cloudDir, c) == Some(key) ==> Lasting(c) && !BarredAtStart(cloudDir, files, c)
    ensures Executions(cloudDir, files, calls, Some(key)) == if Asked(cloudDir, calls, Some(key)) then 1 else 0
  {
    hide Key, BarredAtStart, OutcomeAt, GoodName;
    if calls != [] {
      var n := |calls| - 1;
      RunsExactlyOnce(cloudDir, files, calls[..n], key);
      ExecutionsOfPrefix(cloudDir, files, calls, n, Some(key));
      AskedMore(cloudDir, calls, Some(key));
      if Key(cloudDir, calls[n]) == Some(key) {
        ExecutesIff(cloudDir, files, calls, n);
        if Asked(cloudDir, calls[..n], Some(key)) {
          var c :| c in calls[..n] && Key(cloudDir, c) == Some(key);
          var j :| 0 <= j < n && calls[j] == c;
          SomeoneSticks(cloudDir, files, calls, j, n);
        } else {
          assert forall j :: 0 <= j < n ==> calls[j] in calls[..n];
          assert !TakenBefore(cloudDir, files, calls, n);
        }
      }
    }
  }

  /** If a lasting call came before, the semaphore has been left behind by it or by
      a call before it. */
  lemma SomeoneSticks(cloudDir: string, files: Files, calls: seq<Call>, j: nat, n: nat)
    requires j < n < |calls| && Key(cloudDir, calls[j]).Some? && Key(cloudDir, calls[j]) == Key(cloudDir, calls[n])
    requires forall c :: c in calls ==> GoodName(c.name)
    requires Lasting(calls[j]) && !BarredAtStart(cloudDir, files, calls[j])
    ensures TakenBefore(cloudDir, files, calls, n)
  {
    ExecutesIff(cloudDir, files, calls, j);
    if TakenBefore(cloudDir, files, calls, j) {
      var k :| 0 <= k < j && LeftBy(cloudDir, files, calls, k, Key(cloudDir, calls[j]).value);
    } else {
      assert Executed(OutcomeAt(cloudDir, files, calls, j));
      assert OutcomeAt(cloudDir, files, calls, j).Raised? ==> calls[j].fails;
      assert LeftBy(cloudDir, files, calls, j, Key(cloudDir, calls[j]).value);
    }
  }

  /** Always, no known frequency, and once per instance when there is none to speak of. */
  predicate Keyless(c: Call) {
    !c.freq.PerOnce? && (c.freq.PerInstance? ==> c.iid.None?)
  }

  lemma KeylessIff(cloudDir: string, c: Call)
    ensures Key(cloudDir, c).None? <==> Keyless(c)
  {
  }

  function KeylessCalls(calls: seq<Call>): nat {
    if calls == [] then 0
    else KeylessCalls(calls[..|calls| - 1]) + if Keyless(calls[|calls| - 1]) then 1 else 0
  }

  lemma KeylessRuns(cloudDir: string, files: Files, calls: seq<Call>, i: nat)
    requires i < |calls| && Key(cloudDir, calls[i]).None?
    ensures Executed(OutcomeAt(cloudDir, files, calls, i))
  {
    hide FilesAfter;
  }

  /** Every call that is to run always, or has no instance to run once for, executes, whatever
      the files are; and no other call executes without a semaphore. */
  lemma {:induction false} AlwaysRuns(cloudDir: string, files: Files, calls: seq<Call>)
    ensures Executions(cloudDir, files, calls, None) == KeylessCalls(calls)
  {
    hide OutcomeAt, Key, Executed, Keyless;
    if calls != [] {
      var n := |calls| - 1;
      AlwaysRuns(cloudDir, files, calls[..n]);
      ExecutionsOfPrefix(cloudDir, files, calls, n, None);
      KeylessIff(cloudDir, calls[n]);
      if Key(cloudDir, calls[n]).None? {
        KeylessRuns(cloudDir, files, calls, n);
      }
    }
  }

  lemma LeavesNothing(cloudDir: string, files: Files, c: Call)
    requires Key(cloudDir, c).None? || !Sticks(c, RunOne(cloudDir, files, c).1)
    ensures RunOne(cloudDir, files, c).0 == files
  {
    hide HasRun;
    if Key(cloudDir, c).Some? {
      TakenHasRun(files, SemDir(cloudDir, c.iid, c.freq).value, c);
    }
  }

  lemma TakenHasRun(files: Files, dir: string, c: Call)
    requires c.freq.PerInstance? || c.freq.PerOnce?
    ensures SemFile(dir, CanonName(c.name), c.freq) in files ==> HasRun(files, dir, c.name, c.freq)
  {
  }

  lemma {:induction false} FilesAfterConcat(cloudDir: string, files: Files, a: seq<Call>, b: seq<Call>)
    ensures FilesAfter(cloudDir, files, a + b) == FilesAfter(cloudDir, FilesAfter(cloudDir, files, a), b)
  {
    hide RunOne;
    if b == [] {
      assert a + b == a;
    } else {
      var n := |b| - 1;
      assert (a + b)[..|a + b| - 1] == a + b[..n];
      FilesAfterConcat(cloudDir, files, a, b[..n]);
    }
  }

  /** A call that leaves no semaphore might as well not have been made: it has run before, or
      does not get the lock, or fails and is to clear its semaphore, or takes none. Whatever
      comes before and after it, the files end up the same without it. */
  lemma FailingClears(cloudDir: string, files: Files, calls: seq<Call>, i: nat)
    requires i < |calls|
    requires Key(cloudDir, calls[i]).None? || !Sticks(calls[i], OutcomeAt(cloudDir, files, calls, i))
    ensures FilesAfter(cloudDir, files, calls) == FilesAfter(cloudDir, files, calls[..i] + calls[i + 1..])
  {
    hide RunOne, Key, Sticks;
    assert calls == calls[..i + 1] + calls[i + 1..] && calls[..i + 1][..i] == calls[..i];
    FilesAfterConcat(cloudDir, files, calls[..i + 1], calls[i + 1..]);
    FilesAfterConcat(cloudDir, files, calls[..i], calls[i + 1..]);
    LeavesNothing(cloudDir, FilesAfter(cloudDir, files, calls[..i]), calls[i]);
  }

  // ---------------------------------------------------------------- names from before

  /** A call is barred at the start by its own semaphore, or by one under the name as it was written
      before names had their dashes replaced. */
  lemma BarredIff(cloudDir: string, files: Files, c: Call)
    requires GoodName(c.name) && SemDir(cloudDir, c.iid, c.freq).Some?
    ensures var dir := SemDir(cloudDir, c.iid, c.freq).value;
            BarredAtStart(cloudDir, files, c) <==>
              || dir + "/" + FileName(CanonName(c.name), c.freq) in files
              || dir + "/" + FileName(c.name, c.freq) in files
  {
    hide InstanceSemDir, CloudSemDir, FileName, SemFile, CanonName;
    CanonIsGood(c.name);
    SemFileIs(cloudDir, c.iid, c.freq, CanonName(c.name));
    SemFileIs(cloudDir, c.iid, c.freq, c.name);
  }
}
