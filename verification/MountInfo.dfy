/** Finding the mount a path lies on, in the lines of `/proc/$$/mountinfo`. */
module MountInfo {
  import opened Options
  import opened Strings

  datatype Mount = Mount(device: string, fsType: string, mountPoint: string)

  /** The elements of a path, without the empty ones. */
  function NonEmpty(parts: seq<string>): (r: seq<string>)
    ensures forall p :: p in r ==> p != "" && p in parts
  {
    if parts == [] then []
    else (if parts[0] == "" then [] else [parts[0]]) + NonEmpty(parts[1..])
  }

  function Elements(path: string): seq<string> {
    NonEmpty(Split(path, '/'))
  }

  predicate IsPrefix(a: seq<string>, b: seq<string>) {
    |a| <= |b| && a == b[..|a|]
  }

  const COLUMNS := 10

  // ---------------------------------------------------------------- what a line says

  predicate Wide(line: string) {
    |Words(line)| >= COLUMNS
  }

  function MountPoint(line: string): string
    requires Wide(line)
  {
    Words(line)[4]
  }

  function Index(parts: seq<string>, x: string): (n: nat)
    ensures n <= |parts| && (n < |parts| ==> parts[n] == x) && x !in parts[..n]
  {
    if parts == [] || parts[0] == x then 0
    else
      assert parts[..1 + Index(parts[1..], x)] == [parts[0]] + parts[1..][..Index(parts[1..], x)];
      1 + Index(parts[1..], x)
  }

  /** The line has two columns after the `-` that ends the optional ones. */
  predicate Ended(line: string) {
    Index(Words(line), "-") + 2 < |Words(line)|
  }

  predicate Matches(line: string) {
    Wide(line) && Ended(line)
  }

  function MountOf(line: string): Mount
    requires Matches(line)
  {
    var parts := Words(line);
    var i := Index(parts, "-");
    Mount(parts[i + 2], parts[i + 1], parts[4])
  }

  /** The mount is at the path or above it. */
  predicate Above(line: string, path: string) {
    Wide(line) && IsPrefix(Elements(MountPoint(line)), Elements(path))
  }

  function Depth(line: string): nat {
    if Wide(line) then |Elements(MountPoint(line))| else 0
  }

  // ---------------------------------------------------------------- the scan

  /** The line that matched last, unless the scan gave up. */
  datatype Scan = Failed | Match(best: Option<nat>)

  function ScanLines(lines: seq<string>, path: string): (r: Scan)
    ensures r.Match? && r.best.Some? ==> r.best.value < |lines| && Matches(lines[r.best.value])
  {
    if lines == [] then Match(None)
    else
      var n, before := |lines| - 1, ScanLines(lines[..|lines| - 1], path);
      if before.Failed? || !Wide(lines[n]) then Failed
      else if !Above(lines[n], path) then before
      else if before.best.Some? && Depth(lines[before.best.value]) > Depth(lines[n]) then before
      else if !Matches(lines[n]) then Failed
      else Match(Some(n))
  }

  function Found(lines: seq<string>, path: string): Option<Mount> {
    var r := ScanLines(lines, path);
    if r.Failed? || r.best.None? then None else Some(MountOf(lines[r.best.value]))
  }

  lemma ScanStep(lines: seq<string>, path: string, k: nat)
    requires k < |lines|
    ensures var before, after := ScanLines(lines[..k], path), ScanLines(lines[..k + 1], path);
            after ==
            if before.Failed? || !Wide(lines[k]) then Failed
            else if !Above(lines[k], path) then before
            else if before.best.Some? && Depth(lines[before.best.value]) > Depth(lines[k]) then before
            else if !Matches(lines[k]) then Failed
            else Match(Some(k))
  {
    hide Words, Elements, Above, Depth, Matches, Wide;
    assert lines[..k + 1][..k] == lines[..k];
  }

  lemma {:induction false} FailedStays(lines: seq<string>, path: string, k: nat)
    requires k <= |lines| && ScanLines(lines[..k], path).Failed?
    ensures ScanLines(lines, path).Failed?
    decreases |lines| - k
  {
    hide Words, Elements, Above, Depth, Matches, Wide;
    if k == |lines| {
      assert lines[..k] == lines;
    } else {
      ScanStep(lines, path, k);
      FailedStays(lines, path, k + 1);
    }
  }

  lemma NamesAreNotEmpty(line: string)
    requires Matches(line)
    ensures MountOf(line).device != "" && MountOf(line).fsType != "" && MountOf(line).mountPoint != ""
  {
    var parts := Words(line);
    var i := Index(parts, "-");
    assert parts[i + 2] in parts && parts[i + 1] in parts && parts[4] in parts;
  }

  method ParseMountInfo(path: string, lines: seq<string>) returns (r: Option<Mount>)
    ensures r == Found(lines, path)
  {
    hide Words, Elements, ScanLines;
    var pathElements := Elements(path);
    var devpth, fsType, matchMountPoint: Option<string> := None, None, None;
    var matchElements: Option<seq<string>> := None;
    ghost var best: Option<nat> := None;
    ScanNothing(lines, path);
    for k := 0 to |lines|
      invariant ScanLines(lines[..k], path) == Match(best)
      invariant best.None? ==> devpth == fsType == matchMountPoint == None && matchElements == None
      invariant best.Some? ==> best.value < |lines| && Matches(lines[best.value])
      invariant best.Some? ==> var m := MountOf(lines[best.value]);
                  && devpth == Some(m.device) && fsType == Some(m.fsType) && matchMountPoint == Some(m.mountPoint)
                  && matchElements == Some(Elements(m.mountPoint))
    {
      ScanStep(lines, path, k);
      if ScanLines(lines[..k + 1], path).Failed? {
        FailedStays(lines, path, k + 1);
      }
      var parts := Words(lines[k]);
      if |parts| < COLUMNS {
        return None;
      }
      var mountPoint := parts[4];
      var mountPointElements := Elements(mountPoint);
      if |mountPointElements| > |pathElements| {
        continue;
      }
      var x := if |mountPointElements| < |pathElements| then |mountPointElements| else |pathElements|;
      if mountPointElements[0..x] != pathElements[0..x] {
        continue;
      }
      assert mountPointElements[0..x] == mountPointElements;
      if matchElements.Some? && |matchElements.value| > |mountPointElements| {
        continue;
      }
      var i := Index(parts, "-");
      if i == |parts| {
        return None;
      }
      if i + 1 >= |parts| || i + 2 >= |parts| {
        return None;
      }
      fsType := Some(parts[i + 1]);
      devpth := Some(parts[i + 2]);
      matchMountPoint := Some(mountPoint);
      matchElements := Some(mountPointElements);
      best := Some(k);
    }
    assert lines[..|lines|] == lines;
    if best.Some? {
      NamesAreNotEmpty(lines[best.value]);
    }
    if devpth.Some? && devpth.value != "" && fsType.Some? && fsType.value != ""
       && matchMountPoint.Some? && matchMountPoint.value != "" {
      return Some(Mount(devpth.value, fsType.value, matchMountPoint.value));
    } else {
      return None;
    }
  }

  lemma ScanNothing(lines: seq<string>, path: string)
    ensures ScanLines(lines[..0], path) == Match(None)
  {
  }

  // ---------------------------------------------------------------- what is found

  predicate AllWide(lines: seq<string>) {
    forall i :: 0 <= i < |lines| ==> Wide(lines[i])
  }

  /** Line `i` is looked into: its mount lies above the path, no shallower than every
      mount above the path listed before. */
  predicate LookedInto(lines: seq<string>, path: string, i: nat)
    requires i < |lines|
  {
    && Above(lines[i], path)
    && forall j :: 0 <= j < i && Above(lines[j], path) ==> Depth(lines[j]) <= Depth(lines[i])
  }

  /** Every line is wide enough, and the ones looked into have all their columns. */
  predicate Readable(lines: seq<string>, path: string) {
    && AllWide(lines)
    && forall i :: 0 <= i < |lines| && LookedInto(lines, path, i) ==> Matches(lines[i])
  }

  /** The last one listed among the deepest mounts above the path. */
  predicate Deepest(lines: seq<string>, path: string, i: nat)
    requires i < |lines|
  {
    && Above(lines[i], path)
    && (forall j :: 0 <= j < |lines| && Above(lines[j], path) ==> Depth(lines[j]) <= Depth(lines[i]))
    && (forall j :: i < j < |lines| && Above(lines[j], path) ==> Depth(lines[j]) < Depth(lines[i]))
  }

  lemma {:induction false} ScanFinds(lines: seq<string>, path: string)
    ensures ScanLines(lines, path).Match? <==> Readable(lines, path)
    ensures var r := ScanLines(lines, path);
            r.Match? ==> match r.best
                         case None => forall i :: 0 <= i < |lines| ==> !Above(lines[i], path)
                         case Some(b) => Deepest(lines, path, b)
  {
    hide Words, Elements, Above, Depth, Matches, Wide;
    if lines != [] {
      var n := |lines| - 1;
      var prefix := lines[..n];
      ScanFinds(prefix, path);
      if AllWide(lines) {
        forall i | 0 <= i < n ensures LookedInto(lines, path, i) <==> LookedInto(prefix, path, i) {
        }
      }
    }
  }

  /** The mount found for a path is the deepest one above it, the last listed among
      equals, and none is found exactly when no mount is above the path or some line
      cannot be read. */
  lemma FoundIff(lines: seq<string>, path: string)
    ensures Found(lines, path).Some? <==>
              Readable(lines, path) && exists i :: 0 <= i < |lines| && Above(lines[i], path)
    ensures forall i :: 0 <= i < |lines| && Readable(lines, path) && Deepest(lines, path, i) ==>
              Matches(lines[i]) && Found(lines, path) == Some(MountOf(lines[i]))
  {
    hide Words, Elements, Above, Depth, Matches, Wide, MountOf, ScanLines, Readable, Deepest;
    ScanFinds(lines, path);
    var r := ScanLines(lines, path);
    if r.Match? && r.best.Some? {
      DeepestIsAbove(lines, path, r.best.value);
      forall i | 0 <= i < |lines| && Deepest(lines, path, i) ensures i == r.best.value {
        DeepestIsUnique(lines, path, i, r.best.value);
      }
    } else if r.Match? {
      forall i | 0 <= i < |lines| ensures !Deepest(lines, path, i) {
        NotAboveNotDeepest(lines, path, i);
      }
    }
  }

  lemma DeepestIsAbove(lines: seq<string>, path: string, i: nat)
    requires i < |lines| && Deepest(lines, path, i)
    ensures Above(lines[i], path)
  {
  }

  lemma NotAboveNotDeepest(lines: seq<string>, path: string, i: nat)
    requires i < |lines| && !Above(lines[i], path)
    ensures !Deepest(lines, path, i)
  {
  }

  lemma DeepestIsUnique(lines: seq<string>, path: string, i: nat, j: nat)
    requires i < |lines| && j < |lines| && Deepest(lines, path, i) && Deepest(lines, path, j)
    ensures i == j
  {
    hide Above, Depth;
  }

  /** When every line is well formed, no mount is found exactly when none is above the
      path. */
  lemma WellFormedFinds(lines: seq<string>, path: string)
    requires forall i :: 0 <= i < |lines| ==> Matches(lines[i])
    ensures Found(lines, path).None? <==> forall i :: 0 <= i < |lines| ==> !Above(lines[i], path)
  {
    hide Words, Elements, Above, Depth, Wide, Ended, MountOf;
    FoundIff(lines, path);
  }

  // ---------------------------------------------------------------- paths and columns

  /** The name of an element of a path. */
  predicate GoodElement(e: string) {
    e != "" && '/' !in e
  }

  function PathOf(es: seq<string>): string {
    "/" + Join(es, "/")
  }

  lemma {:induction false} NonEmptyAll(es: seq<string>)
    requires forall e :: e in es ==> GoodElement(e)
    ensures NonEmpty(es) == es
  {
    if es != [] {
      assert es[0] in es;
      NonEmptyAll(es[1..]);
    }
  }

  lemma ElementsOf(es: seq<string>)
    requires forall e :: e in es ==> GoodElement(e)
    ensures Elements(PathOf(es)) == es
  {
    var p := PathOf(es);
    assert p == "" + ['/'] + Join(es, "/");
    SplitFirst("", '/', Join(es, "/"));
    if es == [] {
      assert Split("", '/') == [""];
      assert [""] + [""] == ["", ""] && ["", ""][1..] == [""] && [""][1..] == [];
    } else {
      SplitJoined(es, '/');
      NonEmptyAll(es);
      assert ([""] + es)[1..] == es;
    }
  }

  /** A mount is above a path exactly if the path is the mount point or goes on from it at a slash;
      `/` is above everything, and `/ab` is not above `/abc`. */
  lemma AboveIff(line: string, mount: seq<string>, path: seq<string>)
    requires |Words(line)| >= 10 && Words(line)[4] == PathOf(mount)
    requires (forall e :: e in mount ==> GoodElement(e)) && (forall e :: e in path ==> GoodElement(e))
    ensures Above(line, PathOf(path)) <==> exists rest :: path == mount + rest
    ensures Depth(line) == |mount|
  {
    hide Words, Elements, GoodElement;
    ElementsOf(mount);
    ElementsOf(path);
    if IsPrefix(mount, path) {
      assert path == mount + path[|mount|..];
    }
    if exists rest :: path == mount + rest {
      var rest :| path == mount + rest;
      assert mount == path[..|mount|];
    }
  }

  /** The fifth column is the mount point; after the first `-` come the type and the device. */
  lemma ColumnsAre(line: string, before: seq<string>, fsType: string, device: string, after: seq<string>)
    requires Words(line) == before + ["-", fsType, device] + after && |before| >= 7 && "-" !in before
    ensures Matches(line) && MountOf(line) == Mount(device, fsType, before[4])
  {
    hide Words, Index;
    var parts := Words(line);
    assert parts[..|before|] == before && parts[|before|] == "-";
    IndexIsFirst(parts, |before|);
  }

  lemma {:induction false} IndexIsFirst(parts: seq<string>, k: nat)
    requires k < |parts| && parts[k] == "-" && "-" !in parts[..k]
    ensures Index(parts, "-") == k
  {
    if k > 0 {
      assert parts[..k][0] == parts[0] && parts[1..][..k - 1] == parts[..k][1..];
      IndexIsFirst(parts[1..], k - 1);
    }
  }

  lemma TooFewColumns(line: string)
    ensures |Words(line)| < 10 ==> !Matches(line)
    ensures "-" !in Words(line) ==> !Matches(line)
  {
    hide Words;
    if Index(Words(line), "-") < |Words(line)| {
      assert "-" in Words(line);
    }
  }
}
