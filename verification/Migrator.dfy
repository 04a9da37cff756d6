/** Renaming semaphore files to their canonical names, and what that keeps. */
module Migrator {
  import opened Options
  import opened Settings
  import opened Semaphores

  /** The names of the files in one semaphore directory. */
  type Listing = set<string>

  /** Whether some character before position `n` is not a dot. */
  predicate HasNonDot(p: string, n: nat)
    requires n <= |p|
  {
    exists i :: 0 <= i < n && p[i] != '.'
  }

  /** The position of the last dot, or the length when there is none. */
  function LastDot(p: string): (n: nat)
    ensures n <= |p| && (n < |p| ==> p[n] == '.' && '.' !in p[n + 1..])
    ensures n == |p| <==> '.' !in p
  {
    if p == "" then 0
    else
      var n := LastDot(p[1..]);
      assert p == [p[0]] + p[1..];
      assert forall i :: 0 <= i < |p| - 1 ==> p[1..][i] == p[i + 1];
      if n < |p| - 1 then assert p[n + 2..] == p[1..][n + 1..]; n + 1
      else if p[0] == '.' then 0 else |p|
  }

  /** Where `os.path.splitext` splits: before the last dot, unless only dots come
      before it. */
  function SplitAt(p: string): (n: nat)
    ensures n <= |p|
  {
    var d := LastDot(p);
    if d < |p| && HasNonDot(p, d) then d else |p|
  }

  function Stem(p: string): string {
    p[..SplitAt(p)]
  }

  function Ext(p: string): string {
    p[SplitAt(p)..]
  }

  /** What a file is renamed to. */
  function Migrated(p: string): string {
    CanonName(Stem(p)) + Ext(p)
  }

  /** One semaphore directory: the files in it, and the names of anything else. */
  datatype Directory = Directory(files: Listing, others: Listing)

  /** No name is both a file and something else. */
  predicate Sound(d: Directory) {
    d.files !! d.others
  }

  /** Where the files of a directory end up. One that is moved onto a directory ends up
      inside that and is no longer here. */
  function Migration(files: Listing, others: Listing): Listing {
    set p | p in files && Migrated(p) !in others :: Migrated(p)
  }

  function MigratedDirectory(d: Directory): Directory {
    Directory(Migration(d.files, d.others), d.others)
  }

  /** The files that are not yet where they belong. */
  function Movers(files: Listing): Listing {
    set p | p in files && Migrated(p) != p
  }

  function AllMovers(dirs: seq<Option<Directory>>): nat {
    if dirs == [] then 0
    else
      var last := dirs[|dirs| - 1];
      AllMovers(dirs[..|dirs| - 1]) + if last.Some? then |Movers(last.value.files)| else 0
  }

  /** Goes through the directory of the instance and that of the cloud; one that has no
      path or does not exist is passed over. */
  method MigrateCanonSems(dirs: seq<Option<Directory>>) returns (after: seq<Option<Directory>>, adjusted: nat)
    requires forall i :: 0 <= i < |dirs| && dirs[i].Some? ==> Sound(dirs[i].value)
    ensures |after| == |dirs| && adjusted == AllMovers(dirs)
    ensures forall i :: 0 <= i < |dirs| ==>
              after[i] == if dirs[i].None? then None else Some(MigratedDirectory(dirs[i].value))
  {
    hide Sound, MigratedDirectory, Movers;
    after, adjusted := [], 0;
    for k := 0 to |dirs|
      invariant |after| == k && adjusted == AllMovers(dirs[..k])
      invariant forall i :: 0 <= i < k ==> after[i] == if dirs[i].None? then None else Some(MigratedDirectory(dirs[i].value))
    {
      assert dirs[..k + 1][..k] == dirs[..k];
      if dirs[k].None? {
        after := after + [None];
        continue;
      }
      var d, moved := MigrateDirectory(dirs[k].value);
      after := after + [Some(d)];
      adjusted := adjusted + moved;
    }
    assert dirs[..|dirs|] == dirs;
  }

  /** Goes through a listing in any order, moving files onto their new names. */
  method MigrateDirectory(d: Directory) returns (after: Directory, adjusted: nat)
    requires Sound(d)
    ensures after == MigratedDirectory(d) && adjusted == |Movers(d.files)|
  {
    hide Migration, Movers, Sound;
    NeverBoth(d);
    var files := d.files;
    adjusted := 0;
    var todo := d.files + d.others;
    ghost var done, left: Listing := {}, d.files;
    NothingMigrated(d.others);
    while todo != {}
      invariant forall x :: x in todo && x in d.files ==> x in left
      invariant forall x :: x in left ==> x in todo
      invariant done !! left && done + left == d.files
      invariant files == Migration(done, d.others) + left && adjusted == |Movers(done)|
    {
      var p :| p in todo;
      if p in d.files {
        var moved;
        files, moved := MigrateOne(files, d.others, p, done, left);
        if moved {
          adjusted := adjusted + 1;
        }
        done, left := done + {p}, left - {p};
      }
      todo := todo - {p};
    }
    assert left == {} && Migration(done, d.others) + {} == Migration(done, d.others);
    assert done == d.files;
    after := Directory(files, d.others);
  }

  lemma NeverBoth(d: Directory)
    requires Sound(d)
    ensures forall x :: x in d.files ==> x !in d.others
  {
  }

  lemma NothingMigrated(others: Listing)
    ensures Migration({}, others) == {} && Movers({}) == {}
  {
  }

  method MigrateOne(files0: Listing, others: Listing, p: string, ghost done: Listing, ghost todo: Listing)
    returns (files: Listing, moved: bool)
    requires p in todo && p !in done && p !in others && files0 == Migration(done, others) + todo
    ensures files == Migration(done + {p}, others) + (todo - {p})
    ensures |Movers(done + {p})| == |Movers(done)| + if moved then 1 else 0
  {
    hide Migration, Stem, Ext, CanonName;
    files := files0;
    MigrationMore(done, others, p);
    var name, ext := Stem(p), Ext(p);
    StemAndExt(p);
    var canonName := CanonName(name);
    moved := canonName != name;
    if moved {
      MovedIsNew(p, done, others);
      files := files - {p};
      if canonName + ext !in others {
        files := files + {canonName + ext};
      }
    }
  }

  lemma StemAndExt(p: string)
    ensures Stem(p) + Ext(p) == p
  {
  }

  lemma MigrationMore(done: Listing, others: Listing, p: string)
    ensures Migration(done + {p}, others) == Migration(done, others) + if Migrated(p) in others then {} else {Migrated(p)}
    ensures p !in done ==> |Movers(done + {p})| == |Movers(done)| + if Migrated(p) != p then 1 else 0
  {
    hide Migrated;
    assert Movers(done + {p}) == Movers(done) + if Migrated(p) != p then {p} else {};
  }

  /** A file whose stem has a dash is nobody's new name. */
  lemma MovedIsNew(p: string, done: Listing, others: Listing)
    requires CanonName(Stem(p)) != Stem(p)
    ensures Migrated(p) != p && p !in Migration(done, others)
  {
    assert Migrated(p)[..|Stem(p)|] == CanonName(Stem(p)) && p[..|Stem(p)|] == Stem(p);
    forall q | q in done ensures Migrated(q) != p {
      MigratedIsCanonical(q);
    }
  }

  // ---------------------------------------------------------------- properties

  lemma {:induction false} LastDotOf(p: string, q: string)
    requires |p| == |q| && forall i :: 0 <= i < |p| ==> (p[i] == '.' <==> q[i] == '.')
    ensures LastDot(p) == LastDot(q)
  {
    if p != "" {
      LastDotOf(p[1..], q[1..]);
    }
  }

  /** Migrating keeps the place of the split, so a migrated name stays put. */
  lemma MigratedIsCanonical(p: string)
    ensures SplitAt(Migrated(p)) == SplitAt(p) && |Migrated(p)| == |p|
    ensures CanonName(Stem(Migrated(p))) == Stem(Migrated(p)) && Migrated(Migrated(p)) == Migrated(p)
    ensures Ext(Migrated(p)) == Ext(p)
  {
    var q := Migrated(p);
    var n := SplitAt(p);
    assert forall i :: 0 <= i < n ==> q[i] == if p[i] == '-' then '_' else p[i];
    assert forall i :: n <= i < |p| ==> q[i] == p[i];
    LastDotOf(p, q);
    var d := LastDot(p);
    if d < |p| && HasNonDot(p, d) {
      var i :| 0 <= i < d && p[i] != '.';
      assert q[i] != '.';
    }
    if d < |p| && HasNonDot(q, d) {
      var i :| 0 <= i < d && q[i] != '.';
      assert p[i] != '.';
    }
    assert q[..n] == CanonName(p[..n]) && q[n..] == p[n..];
    CanonHasNoDash(p[..n]);
  }

  /** Whether a name has run, by what there is in its directory. */
  predicate HasRunIn(d: Directory, name: string, f: Frequency) {
    && !f.NoFrequency? && !f.PerAlways?
    && (Present(d, FileName(CanonName(name), f)) || (CanonName(name) != name && Present(d, FileName(name, f))))
  }

  predicate Present(d: Directory, p: string) {
    p in d.files || p in d.others
  }

  /** A dash on both sides of the split: the file moves, but not to where its
      canonical name is looked for. */
  predicate Misplaced(name: string, f: Frequency) {
    var file := FileName(name, f);
    '-' in Stem(file) && '-' in Ext(file)
  }

  lemma CanonIsFixed(name: string, f: Frequency)
    requires f.PerInstance? || f.PerOnce?
    ensures Migrated(FileName(CanonName(name), f)) == FileName(CanonName(name), f)
  {
    hide SplitAt, CanonName;
    var file := FileName(CanonName(name), f);
    CanonHasNoDash(name);
    assert '-' !in file;
    assert '-' !in Stem(file);
    CanonHasNoDash(Stem(file));
    StemAndExt(file);
  }

  lemma CanonOfParts(a: string, b: string)
    ensures CanonName(a + b) == CanonName(a) + CanonName(b)
    ensures CanonName(a) + b == CanonName(a + b) <==> '-' !in b
    ensures CanonName(a) + b == a + b <==> '-' !in a
  {
    CanonHasNoDash(a);
    CanonHasNoDash(b);
    assert CanonName(a + b) == CanonName(a) + CanonName(b);
    assert (CanonName(a) + b)[|a|..] == b && (CanonName(a) + CanonName(b))[|a|..] == CanonName(b);
    assert (CanonName(a) + b)[..|a|] == CanonName(a) && (a + b)[..|a|] == a;
  }

  lemma MigratedIffPlaced(name: string, f: Frequency)
    requires f.PerInstance? || f.PerOnce?
    ensures Migrated(FileName(name, f)) == FileName(CanonName(name), f) || Migrated(FileName(name, f)) == FileName(name, f)
            <==> !Misplaced(name, f)
  {
    hide SplitAt;
    var file := FileName(name, f);
    assert file == Stem(file) + Ext(file);
    assert FileName(CanonName(name), f) == CanonName(file);
    CanonOfParts(Stem(file), Ext(file));
  }

  /** Whatever there is in a directory is there after migration, under its new name. */
  lemma StillPresent(d: Directory, p: string)
    requires Sound(d) && Present(d, p)
    ensures Present(MigratedDirectory(d), p) || Present(MigratedDirectory(d), Migrated(p))
  {
    hide Migrated;
  }

  lemma StaysPresent(d: Directory, p: string)
    requires Sound(d) && Present(d, p) && Migrated(p) == p
    ensures Present(MigratedDirectory(d), p)
  {
    hide Migrated;
    StillPresent(d, p);
  }

  lemma MigrationKeepsHasRun(d: Directory, name: string, f: Frequency)
    requires f.PerInstance? || f.PerOnce?
    requires CanonName(name) == name || !Misplaced(name, f)
    requires Sound(d) && HasRunIn(d, name, f)
    ensures HasRunIn(MigratedDirectory(d), name, f)
  {
    hide Migrated, FileName, Misplaced, CanonName, Sound, Present, MigratedDirectory;
    CanonIsFixed(name, f);
    MigratedIffPlaced(name, f);
    var raw, canon := FileName(name, f), FileName(CanonName(name), f);
    if Present(d, canon) {
      StaysPresent(d, canon);
    } else {
      StillPresent(d, raw);
    }
  }

  lemma MigrationLosesHasRun(name: string, f: Frequency)
    requires f.PerInstance? || f.PerOnce?
    requires CanonName(name) != name && Misplaced(name, f)
    ensures var d := Directory({FileName(name, f)}, {});
            Sound(d) && HasRunIn(d, name, f) && !HasRunIn(MigratedDirectory(d), name, f)
  {
    hide Migrated, FileName, Misplaced, CanonName;
    MigratedIffPlaced(name, f);
    var raw := FileName(name, f);
    assert Migration({raw}, {}) == {Migrated(raw)};
  }

  /** Migrating never makes something that has run look as if it had not, exactly
      for names without a dash on both sides of where the extension splits off. */
  lemma MigrationKeepsHasRunIff(name: string, f: Frequency)
    requires f.PerInstance? || f.PerOnce?
    ensures (forall d: Directory :: Sound(d) && HasRunIn(d, name, f) ==> HasRunIn(MigratedDirectory(d), name, f))
            <==> CanonName(name) == name || !Misplaced(name, f)
  {
    hide HasRunIn, MigratedDirectory, Misplaced, CanonName, Sound;
    if CanonName(name) == name || !Misplaced(name, f) {
      forall d: Directory | Sound(d) && HasRunIn(d, name, f) ensures HasRunIn(MigratedDirectory(d), name, f) {
        MigrationKeepsHasRun(d, name, f);
      }
    } else {
      MigrationLosesHasRun(name, f);
    }
  }

  /** Dashes on both sides of the last dot of a name, as in `a-b.c-d`, make one that is
      lost when it ran once for an instance. */
  lemma DashedOnBothSidesIsLost(a: string, b: string)
    requires '-' in a && '-' in b && '.' !in b
    ensures Misplaced(a + "." + b, PerInstance) && CanonName(a + "." + b) != a + "." + b
  {
    hide Stem, Ext, CanonName;
    var p := a + "." + b;
    SplitsAtDot(a, b);
    var i :| 0 <= i < |a| && a[i] == '-';
    assert p[i] == '-';
    CanonHasNoDash(p);
  }

  lemma SplitsAtDot(a: string, b: string)
    requires '-' in a && '.' !in b
    ensures Stem(a + "." + b) == a && Ext(a + "." + b) == "." + b
  {
    hide SplitAt;
    SplitAtDot(a, b);
    Slices(a, "." + b);
    assert a + "." + b == a + ("." + b);
  }

  lemma SplitAtDot(a: string, b: string)
    requires '-' in a && '.' !in b
    ensures SplitAt(a + "." + b) == |a|
  {
    hide LastDot;
    LastDotIs(a, b);
    var i :| 0 <= i < |a| && a[i] == '-';
    assert (a + "." + b)[i] == '-';
  }

  lemma Slices(a: string, b: string)
    ensures (a + b)[..|a|] == a && (a + b)[|a|..] == b
  {
  }

  lemma LastDotIs(a: string, b: string)
    requires '.' !in b
    ensures LastDot(a + "." + b) == |a|
  {
    hide LastDot;
    var p := a + "." + b;
    assert p[|a|] == '.' && p[|a| + 1..] == b;
  }

  /** `a-b.c-d` had run for the instance, and after migration it has not. */
  lemma DashedNameIsLost()
    ensures var name, d := "a-b.c-d", Directory({"a-b.c-d"}, {});
            Sound(d) && HasRunIn(d, name, PerInstance) && !HasRunIn(MigratedDirectory(d), name, PerInstance)
  {
    hide Misplaced, HasRunIn, MigratedDirectory, CanonName;
    var a, b := "a-b", "c-d";
    assert a[1] == '-' && b[1] == '-';
    assert a + "." + b == "a-b.c-d";
    DashedOnBothSidesIsLost(a, b);
    MigrationLosesHasRun("a-b.c-d", PerInstance);
  }

  /** Names without a dot are among those, and so is every once-only name. */
  lemma DotFreeOrOnceIsKept(name: string, f: Frequency)
    requires (f.PerInstance? && '.' !in name) || f.PerOnce?
    ensures !Misplaced(name, f)
  {
    var file := FileName(name, f);
    if f.PerOnce? {
      assert file == name + ".once";
      assert file[|name|] == '.' && '.' in file;
      var d := LastDot(file);
      assert d >= |name|;
      assert file[|name|..] == ".once";
      assert '-' !in Ext(file);
    }
  }

  /** What has run by the listing of a semaphore directory is what has run by its files. */
  lemma HasRunInDirectory(d: Directory, dir: string, files: Files, name: string, f: Frequency)
    requires f.PerInstance? || f.PerOnce?
    requires forall p :: Present(d, p) <==> PathJoin(dir, p) in files
    ensures HasRunIn(d, name, f) <==> HasRun(files, dir, name, f)
  {
    hide CanonName, FileName, Present, PathJoin;
  }

  /** A name that starts with its only dots has no extension: all of it is made canonical. */
  lemma HiddenNames(dots: string, rest: string)
    requires (forall c :: c in dots ==> c == '.') && '.' !in rest
    ensures Stem(dots + rest) == dots + rest && Migrated(dots + rest) == dots + CanonName(rest)
  {
    hide LastDot, CanonName;
    var p := dots + rest;
    var d := LastDot(p);
    forall i | 0 <= i < |dots| ensures p[i] == '.' {
      assert dots[i] in dots;
    }
    forall i | |dots| <= i < |p| ensures p[i] != '.' {
      assert rest[i - |dots|] in rest;
    }
    CanonOfParts(dots, rest);
    CanonHasNoDash(dots);
    assert Ext(p) == "" && CanonName(p) + "" == CanonName(p);
  }

  /** Every file ends up under its migrated name, unless it is moved onto a directory. */
  lemma FileIsThereIff(d: Directory, p: string)
    requires Sound(d) && p in d.files
    ensures Migrated(p) in MigratedDirectory(d).files <==> Migrated(p) !in d.others
    ensures p !in d.others && Migrated(p) == p ==> p in MigratedDirectory(d).files
  {
    hide Migrated;
  }
}
