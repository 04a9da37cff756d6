/** Resolving the configured mounts and rewriting fstab. */
module Mounts {
  import opened Options
  import opened Strings

  /** The fields of an fstab entry: device, mount point, type, options, frequency, pass. */
  type Row = seq<Option<string>>

  // ---------------------------------------------------------------- defaults and clearing

  function Field(row: Row, j: nat): Option<string> {
    if j < |row| then row[j] else None
  }

  /** Missing fields take their defaults. */
  function Filled(row: Row, defvals: Row): (r: Row)
    ensures |r| == (if |row| < |defvals| then |defvals| else |row|)
    ensures forall j :: 0 <= j < |r| ==> r[j] == if Field(row, j).None? && j < |defvals| then defvals[j] else Field(row, j)
  {
    seq(if |row| < |defvals| then |defvals| else |row|,
        j requires j >= 0 => if Field(row, j).None? && j < |defvals| then defvals[j] else Field(row, j))
  }

  /** Entry `k` takes back every earlier entry for its device. */
  predicate Clears(rows: seq<Row>, defvals: Row, k: nat, i: nat)
    requires i < k < |rows| && |defvals| >= 2
  {
    Filled(rows[k], defvals)[1] == None && Filled(rows[k], defvals)[0] == Filled(rows[i], defvals)[0]
  }

  predicate ClearedBefore(rows: seq<Row>, defvals: Row, n: nat, i: nat)
    requires i < n <= |rows| && |defvals| >= 2
  {
    exists k :: i < k < n && Clears(rows, defvals, k, i)
  }

  /** Entry `i` after the first `n` entries have been gone through. */
  function Resolved(rows: seq<Row>, defvals: Row, n: nat, i: nat): Row
    requires i < n <= |rows| && |defvals| >= 2
  {
    if ClearedBefore(rows, defvals, n, i) then Filled(rows[i], defvals)[1 := None] else Filled(rows[i], defvals)
  }

  method FillRow(row: Row, defvals: Row) returns (r: Row)
    ensures r == Filled(row, defvals)
  {
    r := row;
    for j := 0 to |defvals|
      invariant |r| == (if |row| < j then j else |row|)
      invariant forall m :: 0 <= m < |r| ==> r[m] == if Field(row, m).None? && m < j then defvals[m] else Field(row, m)
    {
      if |r| <= j {
        r := r + [defvals[j]];
      } else if r[j] == None {
        r := r[j := defvals[j]];
      }
    }
  }

  lemma ResolvedStep(rows: seq<Row>, defvals: Row, n: nat, i: nat)
    requires i < n < |rows| && |defvals| >= 2
    ensures Resolved(rows, defvals, n + 1, i) ==
            if Clears(rows, defvals, n, i) then Resolved(rows, defvals, n, i)[1 := None] else Resolved(rows, defvals, n, i)
    ensures |Resolved(rows, defvals, n, i)| >= 2
    ensures Resolved(rows, defvals, n, i)[0] == Filled(rows[i], defvals)[0]
  {
    hide Filled;
    if ClearedBefore(rows, defvals, n, i) {
      var k :| i < k < n && Clears(rows, defvals, k, i);
      assert ClearedBefore(rows, defvals, n + 1, i);
    }
  }

  lemma ResolvedSelf(rows: seq<Row>, defvals: Row, i: nat)
    requires i < |rows| && |defvals| >= 2
    ensures Resolved(rows, defvals, i + 1, i) == Filled(rows[i], defvals)
  {
  }

  method FillAndClear(cfgmnt: array<Row>, defvals: Row)
    requires |defvals| >= 2
    modifies cfgmnt
    ensures forall i :: 0 <= i < cfgmnt.Length ==>
              cfgmnt[i] == Resolved(old(cfgmnt[..]), defvals, cfgmnt.Length, i)
  {
    hide Filled, Resolved;
    ghost var rows := cfgmnt[..];
    for i := 0 to cfgmnt.Length
      invariant forall m :: 0 <= m < i ==> cfgmnt[m] == Resolved(rows, defvals, i, m)
      invariant forall m :: i <= m < cfgmnt.Length ==> cfgmnt[m] == rows[m]
    {
      var row := FillRow(cfgmnt[i], defvals);
      ResolvedSelf(rows, defvals, i);
      cfgmnt[i] := row;
      if row[1] == None {
        for j := 0 to i
          invariant cfgmnt[i] == row
          invariant forall m :: 0 <= m < j ==> cfgmnt[m] == Resolved(rows, defvals, i + 1, m)
          invariant forall m :: j <= m < i ==> cfgmnt[m] == Resolved(rows, defvals, i, m)
          invariant forall m :: i < m < cfgmnt.Length ==> cfgmnt[m] == rows[m]
        {
          ResolvedStep(rows, defvals, i, j);
          if cfgmnt[j][0] == row[0] {
            cfgmnt[j] := cfgmnt[j][1 := None];
          }
        }
      } else {
        forall m: nat | m < i ensures Resolved(rows, defvals, i + 1, m) == Resolved(rows, defvals, i, m) {
          ResolvedStep(rows, defvals, i, m);
        }
      }
    }
  }

  /** An entry keeps a mount point exactly when it has one after the defaults, and no later
      entry for the same device is without one. */
  lemma SurvivesIff(rows: seq<Row>, defvals: Row, i: nat)
    requires i < |rows| && |defvals| >= 2
    ensures Field(Resolved(rows, defvals, |rows|, i), 1).Some? <==>
              && Filled(rows[i], defvals)[1].Some?
              && forall k :: i < k < |rows| && Filled(rows[k], defvals)[1].None? ==>
                   Filled(rows[k], defvals)[0] != Filled(rows[i], defvals)[0]
    ensures Field(Resolved(rows, defvals, |rows|, i), 1).Some? ==>
              Resolved(rows, defvals, |rows|, i) == Filled(rows[i], defvals)
  {
    hide Filled;
    assert forall k :: i < k < |rows| ==>
      (Clears(rows, defvals, k, i) <==>
       Filled(rows[k], defvals)[1].None? && Filled(rows[k], defvals)[0] == Filled(rows[i], defvals)[0]);
  }

  /** The entries that have a mount point, in order. */
  function Active(rows: seq<Row>): (r: seq<Row>)
    ensures forall row :: row in r <==> row in rows && Field(row, 1).Some?
  {
    if rows == [] then []
    else
      var n := |rows| - 1;
      assert rows == rows[..n] + [rows[n]];
      Active(rows[..n]) + if Field(rows[n], 1).Some? then [rows[n]] else []
  }

  lemma ActiveStep(rows: seq<Row>, row: Row)
    ensures Active(rows + [row]) == Active(rows) + if Field(row, 1).Some? then [row] else []
  {
    hide Field;
    assert (rows + [row])[..|rows|] == rows;
  }

  /** In order: what is mounted of some entries comes before what is mounted of those after. */
  lemma {:induction false} ActiveOfBoth(a: seq<Row>, b: seq<Row>)
    ensures Active(a + b) == Active(a) + Active(b)
  {
    hide Active, Field;
    if b == [] {
      assert a + b == a;
      NoneActive();
    } else {
      var n := |b| - 1;
      assert a + b == (a + b[..n]) + [b[n]] && b == b[..n] + [b[n]];
      ActiveOfBoth(a, b[..n]);
      ActiveStep(a + b[..n], b[n]);
      ActiveStep(b[..n], b[n]);
    }
  }

  lemma NoneActive()
    ensures Active([]) == []
  {
  }

  method ActiveMounts(cfgmnt: seq<Row>) returns (actlist: seq<Row>)
    requires forall row :: row in cfgmnt ==> |row| >= 2
    ensures actlist == Active(cfgmnt)
  {
    actlist := [];
    for i := 0 to |cfgmnt|
      invariant actlist == Active(cfgmnt[..i])
    {
      assert cfgmnt[..i + 1][..i] == cfgmnt[..i] && cfgmnt[i] in cfgmnt;
      if cfgmnt[i][1] != None {
        actlist := actlist + [cfgmnt[i]];
      }
    }
    assert cfgmnt[..|cfgmnt|] == cfgmnt;
  }

  // ---------------------------------------------------------------- default mounts

  predicate HasDevice(rows: seq<Row>, device: Option<string>) {
    exists row :: row in rows && Field(row, 0) == device
  }

  /** Default mounts are added in turn, each unless its device is there by then. */
  function WithDefaults(rows: seq<Row>, defaults: seq<Row>): seq<Row>
    decreases |defaults|
  {
    if defaults == [] then rows
    else WithDefaults(if HasDevice(rows, Field(defaults[0], 0)) then rows else rows + [defaults[0]], defaults[1..])
  }

  method AddDefaults(rows: seq<Row>, defaults: seq<Row>) returns (cfgmnt: seq<Row>)
    requires forall row :: row in rows || row in defaults ==> row != []
    ensures cfgmnt == WithDefaults(rows, defaults)
  {
    cfgmnt := rows;
    assert defaults[0..] == defaults;
    var i := 0;
    while i < |defaults|
      invariant 0 <= i <= |defaults|
      invariant forall row :: row in cfgmnt ==> row != []
      invariant WithDefaults(cfgmnt, defaults[i..]) == WithDefaults(rows, defaults)
    {
      assert defaults[i..][1..] == defaults[i + 1..] && defaults[i] in defaults;
      var has := Names(cfgmnt, defaults[i][0]);
      if !has {
        cfgmnt := cfgmnt + [defaults[i]];
      }
      i := i + 1;
    }
  }

  method Names(cfgmnt: seq<Row>, device: Option<string>) returns (has: bool)
    requires forall row :: row in cfgmnt ==> row != []
    ensures has == HasDevice(cfgmnt, device)
  {
    for j := 0 to |cfgmnt|
      invariant forall m :: 0 <= m < j ==> Field(cfgmnt[m], 0) != device
    {
      assert cfgmnt[j] in cfgmnt;
      if cfgmnt[j][0] == device {
        return true;
      }
    }
    return false;
  }

  /** Of the default mounts exactly those are added whose device no entry names, one for each
      device, after the entries and without touching them. */
  lemma {:induction false} DefaultsAddedIff(rows: seq<Row>, defaults: seq<Row>)
    ensures var r := WithDefaults(rows, defaults);
            && rows <= r
            && (forall d :: d in defaults ==> HasDevice(r, Field(d, 0)))
            && (forall i :: |rows| <= i < |r| ==> r[i] in defaults && !HasDevice(r[..i], Field(r[i], 0)))
    decreases |defaults|
  {
    hide HasDevice;
    if defaults != [] {
      var d := defaults[0];
      var more := if HasDevice(rows, Field(d, 0)) then rows else rows + [d];
      DefaultsAddedIff(more, defaults[1..]);
      var r := WithDefaults(rows, defaults);
      HasDeviceLast(rows, d);
      HasDeviceGrows(more, r, Field(d, 0));
      assert defaults == [d] + defaults[1..];
      assert more != rows ==> r[..|rows|] == rows && r[|rows|] == d;
    }
  }

  lemma HasDeviceLast(rows: seq<Row>, d: Row)
    ensures HasDevice(rows + [d], Field(d, 0))
  {
    assert d in rows + [d];
  }

  lemma HasDeviceGrows(rows: seq<Row>, more: seq<Row>, device: Option<string>)
    requires rows <= more
    ensures HasDevice(rows, device) ==> HasDevice(more, device)
  {
    assert more == rows + more[|rows|..];
  }

  // ---------------------------------------------------------------- fstab lines

  const COMMENT := "comment=cloudconfig"

  /** The characters of `string.whitespace`. */
  predicate IsBlank(c: char) {
    '\t' <= c <= '\r' || c == ' '
  }

  function BlanksEnd(s: string): (n: nat)
    ensures n <= |s| && (n < |s| ==> !IsBlank(s[n]))
  {
    if s == "" || !IsBlank(s[0]) then 0 else 1 + BlanksEnd(s[1..])
  }

  function TokenEnd(s: string): (n: nat)
    ensures n <= |s| && (n < |s| ==> IsBlank(s[n]))
  {
    if s == "" || IsBlank(s[0]) then 0 else 1 + TokenEnd(s[1..])
  }

  /** `WS.split(s)`: blanks at either end leave an empty token there. */
  function Tokens(s: string): (toks: seq<string>)
    ensures |toks| > 0
    decreases |s|
  {
    var n := TokenEnd(s);
    if n == |s| then [s]
    else
      var rest := s[n..];
      [s[..n]] + Tokens(rest[BlanksEnd(rest)..])
  }

  /** The line was written here before. */
  predicate Managed(line: string) {
    var toks := Tokens(line);
    |toks| > 3 && Contains(toks[3], COMMENT)
  }

  function Foreign(lines: seq<string>): (r: seq<string>)
    ensures forall l :: l in r <==> l in lines && !Managed(l)
  {
    if lines == [] then []
    else
      assert lines == [lines[0]] + lines[1..];
      (if Managed(lines[0]) then [] else [lines[0]]) + Foreign(lines[1..])
  }

  function Claimed(fields: seq<string>): seq<string>
    requires |fields| > 3
  {
    fields[3 := fields[3] + "," + COMMENT]
  }

  function CcLine(fields: seq<string>): string
    requires |fields| > 3
  {
    Join(Claimed(fields), "\t")
  }

  predicate WideRows(actlist: seq<seq<string>>) {
    forall i :: 0 <= i < |actlist| ==> |actlist[i]| > 3
  }

  function CcLines(actlist: seq<seq<string>>): (r: seq<string>)
    requires WideRows(actlist)
    ensures |r| == |actlist| && forall i :: 0 <= i < |r| ==> r[i] == CcLine(actlist[i])
  {
    if actlist == [] then [] else [CcLine(actlist[0])] + CcLines(actlist[1..])
  }

  /** The new contents of fstab, which stays as it is when there is nothing to mount. */
  function Rewritten(actlist: seq<seq<string>>, contents: string): string
    requires WideRows(actlist)
  {
    if actlist == [] then contents
    else Join(Foreign(SplitLines(contents)) + CcLines(actlist), "\n") + "\n"
  }

  lemma {:induction false} ForeignOf(a: seq<string>, b: seq<string>)
    ensures Foreign(a + b) == Foreign(a) + Foreign(b)
  {
    hide Managed;
    if a == [] {
      assert a + b == b;
    } else {
      assert (a + b)[1..] == a[1..] + b;
      ForeignOf(a[1..], b);
    }
  }

  /** A field as text; one that is not set prints as Python prints it. */
  function Shown(f: Option<string>): string {
    match f case None => "None" case Some(s) => s
  }

  function Texts(row: Row): (fields: seq<string>)
    ensures |fields| == |row| && forall j :: 0 <= j < |row| ==> fields[j] == Shown(row[j])
  {
    seq(|row|, j requires 0 <= j < |row| => Shown(row[j]))
  }

  function AllTexts(actlist: seq<Row>): (r: seq<seq<string>>)
    ensures |r| == |actlist| && forall i :: 0 <= i < |r| ==> r[i] == Texts(actlist[i])
  {
    seq(|actlist|, i requires 0 <= i < |actlist| => Texts(actlist[i]))
  }

  /** An entry whose fields can be joined: all of them are set, but for the options, which
      have been printed by then. */
  predicate Joinable(row: Row) {
    forall j :: 0 <= j < |row| && j != 3 ==> row[j].Some?
  }

  predicate AllJoinable(actlist: seq<Row>) {
    forall row :: row in actlist ==> Joinable(row)
  }

  predicate WideEntries(actlist: seq<Row>) {
    forall row :: row in actlist ==> |row| > 3
  }

  lemma WideTexts(actlist: seq<Row>)
    requires WideEntries(actlist)
    ensures WideRows(AllTexts(actlist))
  {
  }

  /** The lines for the entries, each claimed by a comment in its options. */
  method WriteEntries(actlist: seq<Row>) returns (ccLines: Option<seq<string>>)
    requires WideEntries(actlist)
    ensures WideRows(AllTexts(actlist))
    ensures ccLines == if AllJoinable(actlist) then Some(CcLines(AllTexts(actlist))) else None
  {
    hide Join, Joinable, CcLines, AllTexts, Claimed, Texts;
    WideTexts(actlist);
    ghost var all := CcLines(AllTexts(actlist));
    assert |all| == |actlist|;
    var lines := [];
    for i := 0 to |actlist|
      invariant lines == all[..i] && forall m :: 0 <= m < i ==> Joinable(actlist[m])
    {
      var line := actlist[i];
      assert line in actlist && all[i] == CcLine(AllTexts(actlist)[i]) == CcLine(Texts(line));
      line := line[3 := Some(Shown(line[3]) + "," + COMMENT)];
      ClaimedTexts(actlist[i]);
      if !Joinable(line) {
        return None;
      }
      lines := lines + [Join(Texts(line), "\t")];
    }
    assert lines == all;
    return Some(lines);
  }

  lemma ClaimedTexts(row: Row)
    requires |row| > 3
    ensures var line := row[3 := Some(Shown(row[3]) + "," + COMMENT)];
            Texts(line) == Claimed(Texts(row)) && (Joinable(line) <==> Joinable(row))
  {
    var line := row[3 := Some(Shown(row[3]) + "," + COMMENT)];
    forall j | 0 <= j < |row| && j != 3 ensures line[j] == row[j] {}
    if Joinable(line) {
      forall j | 0 <= j < |row| && j != 3 ensures row[j].Some? {
        assert line[j].Some?;
      }
    }
  }

  lemma NoneForeign()
    ensures Foreign([]) == []
  {
  }

  lemma ForeignStep(lines: seq<string>, i: nat)
    requires i < |lines|
    ensures Foreign(lines[..i + 1]) == Foreign(lines[..i]) + if Managed(lines[i]) then [] else [lines[i]]
  {
    hide Managed;
    ForeignOf(lines[..i], [lines[i]]);
    assert lines[..i + 1] == lines[..i] + [lines[i]];
  }

  /** Drops the lines written here before. */
  method KeepForeign(lines: seq<string>) returns (fstabLines: seq<string>, removed: seq<string>)
    ensures fstabLines == Foreign(lines)
    ensures |fstabLines| + |removed| == |lines| && forall l :: l in removed ==> Managed(l)
  {
    hide Managed, Foreign;
    fstabLines, removed := [], [];
    assert lines[..0] == [];
    NoneForeign();
    for i := 0 to |lines|
      invariant fstabLines == Foreign(lines[..i])
      invariant |fstabLines| + |removed| == i && forall l :: l in removed ==> Managed(l)
    {
      ForeignStep(lines, i);
      if Managed(lines[i]) {
        removed := removed + [lines[i]];
        continue;
      }
      fstabLines := fstabLines + [lines[i]];
    }
    assert lines[..|lines|] == lines;
  }

  /** What is written for some entries; `None` when joining their fields raises. */
  function FstabOf(actlist: seq<Row>, contents: string): Option<string>
    requires WideEntries(actlist)
  {
    WideTexts(actlist);
    if AllJoinable(actlist) then Some(Rewritten(AllTexts(actlist), contents)) else None
  }

  method RewriteFstab(actlist: seq<Row>, contents: string) returns (r: Option<string>)
    requires WideEntries(actlist)
    ensures r == FstabOf(actlist, contents)
  {
    hide SplitLines, Join, Foreign, CcLines, Joinable;
    if |actlist| == 0 {
      return Some(contents);
    }
    var ccLines := WriteEntries(actlist);
    if ccLines.None? {
      return None;
    }
    var fstabLines, _ := KeepForeign(SplitLines(contents));
    fstabLines := fstabLines + ccLines.value;
    r := Some(Join(fstabLines, "\n") + "\n");
  }

  // ---------------------------------------------------------------- reading fstab back

  /** A field that fstab can hold: not empty, without blanks or line breaks. */
  predicate GoodField(f: string) {
    f != "" && NoBreak(f) && forall c :: c in f ==> !IsBlank(c)
  }

  predicate GoodRow(fields: seq<string>) {
    |fields| > 3 && forall i :: 0 <= i < |fields| ==> GoodField(fields[i])
  }

  predicate GoodRows(actlist: seq<seq<string>>) {
    forall i :: 0 <= i < |actlist| ==> |actlist[i]| > 3 && GoodRow(actlist[i])
  }

  lemma {:induction false} TokenEndOf(f: string, rest: string)
    requires (forall c :: c in f ==> !IsBlank(c)) && (rest == "" || IsBlank(rest[0]))
    ensures TokenEnd(f + rest) == |f|
  {
    if f == "" {
      assert f + rest == rest;
    } else {
      assert f[0] in f && (f + rest)[1..] == f[1..] + rest;
      TokenEndOf(f[1..], rest);
    }
  }

  lemma TokensStep(f: string, sep: char, rest: string)
    requires GoodField(f) && IsBlank(sep) && rest != "" && !IsBlank(rest[0])
    ensures Tokens(f + [sep] + rest) == [f] + Tokens(rest)
  {
    var s := f + [sep] + rest;
    assert s == f + ([sep] + rest);
    TokenEndOf(f, [sep] + rest);
    assert s[|f|..] == [sep] + rest && s[..|f|] == f;
    assert ([sep] + rest)[1..] == rest;
    assert BlanksEnd([sep] + rest) == 1;
  }

  lemma TokensLast(f: string)
    requires GoodField(f)
    ensures Tokens(f) == [f] && !IsBlank(f[0])
  {
    assert f + "" == f && f[0] in f;
    TokenEndOf(f, "");
  }

  lemma TabIsBlank()
    ensures IsBlank('\t') && IsBlank(' ')
  {
  }

  lemma {:induction false} TokensOfRow(fields: seq<string>)
    requires fields != [] && forall i :: 0 <= i < |fields| ==> GoodField(fields[i])
    ensures Tokens(Join(fields, "\t")) == fields
    ensures Join(fields, "\t") != "" && !IsBlank(Join(fields, "\t")[0])
  {
    hide Tokens, IsBlank;
    TokensLast(fields[0]);
    if |fields| > 1 {
      TokensOfRow(fields[1..]);
      TabIsBlank();
      TokensStep(fields[0], '\t', Join(fields[1..], "\t"));
    }
  }

  lemma CommentIsGood(f: string)
    requires GoodField(f)
    ensures GoodField(f + "," + COMMENT) && Contains(f + "," + COMMENT, COMMENT)
  {
    var g := f + "," + COMMENT;
    assert g[|f| + 1..] == COMMENT;
    assert StartsWith(g[|f| + 1..], COMMENT);
  }

  lemma ClaimedIsGood(fields: seq<string>)
    requires GoodRow(fields)
    ensures GoodRow(Claimed(fields)) && Contains(Claimed(fields)[3], COMMENT)
  {
    hide GoodField, Contains;
    CommentIsGood(fields[3]);
  }

  lemma {:induction false} JoinNoBreak(fields: seq<string>)
    requires forall i :: 0 <= i < |fields| ==> NoBreak(fields[i])
    ensures NoBreak(Join(fields, "\t"))
  {
    if |fields| > 1 {
      JoinNoBreak(fields[1..]);
    }
  }

  /** A line written here is recognized later, and is one line. */
  lemma CcLineIsManaged(fields: seq<string>)
    requires GoodRow(fields)
    ensures Managed(CcLine(fields)) && NoBreak(CcLine(fields))
  {
    hide Tokens, NoBreak, Contains;
    ClaimedIsGood(fields);
    TokensOfRow(Claimed(fields));
    JoinNoBreak(Claimed(fields));
  }

  lemma {:induction false} CcLinesAreManaged(actlist: seq<seq<string>>)
    requires GoodRows(actlist)
    ensures Foreign(CcLines(actlist)) == []
    ensures forall l :: l in CcLines(actlist) ==> NoBreak(l) && Managed(l)
  {
    hide Managed, NoBreak, CcLine;
    if actlist != [] {
      CcLineIsManaged(actlist[0]);
      CcLinesAreManaged(actlist[1..]);
    }
  }

  lemma JoinLines(lines: seq<string>)
    requires lines != []
    ensures Join(lines, "\n") + "\n" == Unlines(lines)
  {
    if |lines| > 1 {
      JoinLines(lines[1..]);
    }
  }

  /** Rewriting keeps the foreign lines, in order, and puts the new entries in place of
      all the managed ones. */
  lemma RewrittenLines(actlist: seq<seq<string>>, contents: string)
    requires GoodRows(actlist)
    ensures actlist != [] ==> SplitLines(Rewritten(actlist, contents)) == Foreign(SplitLines(contents)) + CcLines(actlist)
    ensures Foreign(SplitLines(Rewritten(actlist, contents))) == Foreign(SplitLines(contents))
  {
    hide Managed, NoBreak, CcLine, SplitLines, Unlines, Join;
    var kept, added := Foreign(SplitLines(contents)), CcLines(actlist);
    CcLinesAreManaged(actlist);
    if actlist != [] {
      SplitUnlines(kept + added);
      JoinLines(kept + added);
      ForeignOf(kept, added);
      ForeignAll(kept);
      assert kept + [] == kept;
    }
  }

  lemma {:induction false} ForeignAll(lines: seq<string>)
    requires forall i :: 0 <= i < |lines| ==> !Managed(lines[i])
    ensures Foreign(lines) == lines
  {
    hide Managed;
    if lines != [] {
      ForeignAll(lines[1..]);
    }
  }

  /** Only the last rewriting that has something to mount counts; in particular, doing it
      twice is doing it once. */
  lemma LastRewriteCounts(first: seq<seq<string>>, second: seq<seq<string>>, contents: string)
    requires GoodRows(first) && WideRows(second)
    ensures Rewritten(second, Rewritten(first, contents)) == Rewritten(if second == [] then first else second, contents)
  {
    hide SplitLines, Foreign, CcLines, Join;
    RewrittenLines(first, contents);
  }

  lemma {:induction false} ForeignIsEmpty(lines: seq<string>)
    ensures Foreign(lines) == [] <==> forall i :: 0 <= i < |lines| ==> Managed(lines[i])
  {
    hide Managed;
    if lines != [] {
      ForeignIsEmpty(lines[1..]);
    }
  }

  predicate UnbrokenRows(actlist: seq<seq<string>>) {
    forall i :: 0 <= i < |actlist| ==> |actlist[i]| > 3 && NoBreak(CcLine(actlist[i]))
  }

  lemma CcLinesAreUnbroken(actlist: seq<seq<string>>)
    requires UnbrokenRows(actlist)
    ensures forall l :: l in CcLines(actlist) ==> NoBreak(l)
  {
    hide NoBreak, CcLine, CcLines;
    var cc := CcLines(actlist);
    forall l | l in cc ensures NoBreak(l) {
      var i :| 0 <= i < |cc| && cc[i] == l;
      assert NoBreak(CcLine(actlist[i]));
    }
  }

  /** Unlike `RewrittenLines`, whether or not the lines written are recognized again. */
  lemma UnbrokenLines(actlist: seq<seq<string>>, contents: string)
    requires actlist != [] && UnbrokenRows(actlist)
    ensures SplitLines(Rewritten(actlist, contents)) == Foreign(SplitLines(contents)) + CcLines(actlist)
    ensures Rewritten(actlist, contents) == Unlines(Foreign(SplitLines(contents)) + CcLines(actlist))
  {
    hide NoBreak, CcLine, SplitLines, Unlines, Foreign, Join;
    CcLinesAreUnbroken(actlist);
    SplitUnlines(Foreign(SplitLines(contents)) + CcLines(actlist));
    JoinLines(Foreign(SplitLines(contents)) + CcLines(actlist));
  }

  /** For entries without line breaks, rewriting twice is rewriting once exactly when the
      fourth token of each line written, read back, still has the comment. */
  lemma TwiceIsOnceIff(actlist: seq<seq<string>>, contents: string)
    requires UnbrokenRows(actlist)
    ensures Rewritten(actlist, Rewritten(actlist, contents)) == Rewritten(actlist, contents) <==>
            forall i :: 0 <= i < |actlist| ==> Managed(CcLine(actlist[i]))
  {
    hide Managed, NoBreak, CcLine, CcLines, SplitLines, Unlines, Foreign, Rewritten;
    if actlist == [] {
      NothingRewritten(contents);
    } else {
      var once := Rewritten(actlist, contents);
      var kept, cc := Foreign(SplitLines(contents)), CcLines(actlist);
      UnbrokenLines(actlist, contents);
      UnbrokenLines(actlist, once);
      var kept2 := Foreign(kept + cc);
      ForeignOf(kept, cc);
      ForeignAll(kept);
      ForeignIsEmpty(cc);
      if Foreign(cc) == [] {
        assert kept2 == kept;
      } else {
        assert |kept2 + cc| > |kept + cc|;
        assert SplitLines(Rewritten(actlist, once)) != SplitLines(once);
      }
    }
  }

  lemma NothingRewritten(contents: string)
    ensures Rewritten([], contents) == contents
  {
  }

  /** A mount point with a blank in it is not recognized again: its line is written anew
      by every rewriting. */
  lemma BlankMountPointIsNotManaged(device: string, a: string, b: string, fsType: string, more: seq<string>)
    requires GoodField(device) && GoodField(a) && GoodField(b) && GoodField(fsType) && more != []
    requires forall i :: 0 <= i < |more| ==> GoodField(more[i])
    requires !Contains(fsType, COMMENT)
    ensures !Managed(CcLine([device, a + " " + b, fsType] + more))
  {
    hide Contains, Tokens, NoBreak, GoodField, IsBlank, Join;
    var fields := [device, a + " " + b, fsType] + more;
    var claimed := more[0 := more[0] + "," + COMMENT];
    assert Claimed(fields) == [device, a + " " + b, fsType] + claimed;
    CommentIsGood(more[0]);
    var t := Join([b, fsType] + claimed, "\t");
    TokensOfRow([b, fsType] + claimed);
    JoinFirst(b, [fsType] + claimed);
    JoinFirst(a + " " + b, [fsType] + claimed);
    JoinFirst(device, [a + " " + b, fsType] + claimed);
    assert [b] + ([fsType] + claimed) == [b, fsType] + claimed;
    assert [a + " " + b] + ([fsType] + claimed) == [a + " " + b, fsType] + claimed;
    assert [device] + ([a + " " + b, fsType] + claimed) == Claimed(fields);
    assert a + " " + b + "\t" + Join([fsType] + claimed, "\t") == a + [' '] + t;
    TabIsBlank();
    TokensStep(a, ' ', t);
    NotBlankFirst(a, [' '] + t);
    assert a + [' '] + t == a + ([' '] + t);
    TokensStep(device, '\t', a + [' '] + t);
    assert Tokens(CcLine(fields)) == [device] + ([a] + ([b, fsType] + claimed));
  }

  lemma JoinFirst(f: string, more: seq<string>)
    requires more != []
    ensures Join([f] + more, "\t") == f + "\t" + Join(more, "\t")
  {
    assert ([f] + more)[1..] == more;
  }

  lemma NotBlankFirst(f: string, s: string)
    requires GoodField(f)
    ensures f + s != "" && !IsBlank((f + s)[0])
  {
    assert f[0] in f;
  }

  // ---------------------------------------------------------------- from the configuration to fstab

  /** The default mounts whose devices exist. */
  function DefaultMounts(ephemeral: Option<string>, swap: Option<string>, defvals: Row): seq<Row>
    requires |defvals| > 3
  {
    (if ephemeral.Some? then [[ephemeral, Some("/mnt"), Some("auto"), defvals[3], Some("0"), Some("2")]] else [])
    + (if swap.Some? then [SwapEntry(swap.value)] else [])
  }

  function SwapEntry(device: string): Row {
    [Some(device), Some("none"), Some("swap"), Some("sw"), Some("0"), Some("0")]
  }

  function AllResolved(rows: seq<Row>, defvals: Row): (r: seq<Row>)
    requires |defvals| >= 2
    ensures |r| == |rows| && forall i :: 0 <= i < |r| ==> r[i] == Resolved(rows, defvals, |rows|, i)
  {
    seq(|rows|, i requires 0 <= i < |rows| => Resolved(rows, defvals, |rows|, i))
  }

  /** What is configured and what is found: the entries, the default fields, the devices of
      the default mounts, and the swap file that was set up. */
  datatype Config = Config(rows: seq<Row>, defvals: Row, ephemeral: Option<string>, swapDevice: Option<string>, swapFile: Option<string>)

  /** The entries that are mounted. */
  function Actlist(cfg: Config): seq<Row>
    requires |cfg.defvals| > 3
  {
    Active(WithDefaults(AllResolved(cfg.rows, cfg.defvals), DefaultMounts(cfg.ephemeral, cfg.swapDevice, cfg.defvals)))
    + if cfg.swapFile.Some? then [SwapEntry(cfg.swapFile.value)] else []
  }

  lemma ResolvedIsWide(rows: seq<Row>, defvals: Row)
    requires |defvals| > 3
    ensures WideEntries(AllResolved(rows, defvals))
  {
    hide ClearedBefore;
    forall row | row in AllResolved(rows, defvals) ensures |row| > 3 {
      var i :| 0 <= i < |rows| && row == Resolved(rows, defvals, |rows|, i);
    }
  }

  lemma DefaultsAreWide(cfg: Config)
    requires |cfg.defvals| > 3
    ensures WideEntries(DefaultMounts(cfg.ephemeral, cfg.swapDevice, cfg.defvals))
  {
  }

  /** Whatever the configured entries are made of, the default mounts are one of those. */
  lemma WithDefaultsIn(rows: seq<Row>, defaults: seq<Row>)
    ensures forall row :: row in WithDefaults(rows, defaults) ==> row in rows || row in defaults
  {
    hide HasDevice, WithDefaults;
    DefaultsAddedIff(rows, defaults);
    var r := WithDefaults(rows, defaults);
    forall row | row in r ensures row in rows || row in defaults {
      var i :| 0 <= i < |r| && r[i] == row;
      assert i < |rows| ==> rows[i] == row;
    }
  }

  lemma ActlistIsWide(cfg: Config)
    requires |cfg.defvals| > 3
    ensures WideEntries(WithDefaults(AllResolved(cfg.rows, cfg.defvals), DefaultMounts(cfg.ephemeral, cfg.swapDevice, cfg.defvals)))
    ensures WideEntries(Actlist(cfg))
  {
    hide AllResolved, WithDefaults, DefaultMounts;
    ResolvedIsWide(cfg.rows, cfg.defvals);
    DefaultsAreWide(cfg);
    WithDefaultsIn(AllResolved(cfg.rows, cfg.defvals), DefaultMounts(cfg.ephemeral, cfg.swapDevice, cfg.defvals));
  }

  /** What becomes of fstab; `None` when an entry cannot be joined, and then nothing is written. */
  function FstabAfter(cfg: Config, contents: string): Option<string>
    requires |cfg.defvals| > 3
  {
    ActlistIsWide(cfg);
    FstabOf(Actlist(cfg), contents)
  }

  /** The lines written for the mounts. */
  function MountLines(cfg: Config): seq<string>
    requires |cfg.defvals| > 3
  {
    ActlistIsWide(cfg);
    WideTexts(Actlist(cfg));
    CcLines(AllTexts(Actlist(cfg)))
  }

  method UpdateFstab(cfgmnt: array<Row>, defvals: Row, ephemeral: Option<string>, swapDevice: Option<string>,
                     swapFile: Option<string>, contents: string) returns (r: Option<string>)
    requires |defvals| > 3
    modifies cfgmnt
    ensures r == FstabAfter(Config(old(cfgmnt[..]), defvals, ephemeral, swapDevice, swapFile), contents)
  {
    hide FstabOf, Resolved, WithDefaults, Active;
    ghost var cfg := Config(cfgmnt[..], defvals, ephemeral, swapDevice, swapFile);
    FillAndClear(cfgmnt, defvals);
    assert cfgmnt[..] == AllResolved(cfg.rows, defvals);
    ResolvedIsWide(cfg.rows, defvals);
    DefaultsAreWide(cfg);
    ActlistIsWide(cfg);
    var mounts := AddDefaults(cfgmnt[..], DefaultMounts(ephemeral, swapDevice, defvals));
    var actlist := ActiveMounts(mounts);
    if swapFile.Some? {
      actlist := actlist + [SwapEntry(swapFile.value)];
    } else {
      assert actlist + [] == actlist;
    }
    r := RewriteFstab(actlist, contents);
  }

  predicate GoodSet(row: Row) {
    forall j :: 0 <= j < |row| && row[j].Some? ==> GoodField(row[j].value)
  }

  /** Every field that is set is one that fstab can hold; every entry names its device; from
      the third field on there are defaults, and nothing is left unset beyond them. */
  predicate GoodConfig(cfg: Config) {
    && |cfg.defvals| > 3 && GoodSet(cfg.defvals)
    && (forall j :: 2 <= j < |cfg.defvals| ==> cfg.defvals[j].Some?)
    && (forall row: Row :: row in cfg.rows ==>
          && GoodSet(row) && Field(row, 0).Some?
          && forall j :: |cfg.defvals| <= j < |row| ==> row[j].Some?)
    && GoodSet([cfg.ephemeral, cfg.swapDevice, cfg.swapFile])
  }

  /** An entry that is mounted and that fstab can hold. */
  predicate GoodMount(row: Row) {
    |row| > 3 && GoodSet(row) && forall j :: 0 <= j < |row| ==> row[j].Some?
  }

  lemma FilledIsGood(row: Row, cfg: Config)
    requires GoodConfig(cfg) && row in cfg.rows && Filled(row, cfg.defvals)[1].Some?
    ensures GoodMount(Filled(row, cfg.defvals))
  {
    hide GoodField;
  }

  lemma PlainFieldsAreGood()
    ensures GoodField("/mnt") && GoodField("auto") && GoodField("0") && GoodField("2")
    ensures GoodField("none") && GoodField("swap") && GoodField("sw")
  {
  }

  lemma SwapIsGood(device: string)
    requires GoodField(device)
    ensures GoodMount(SwapEntry(device))
  {
    hide GoodField;
    PlainFieldsAreGood();
  }

  lemma EphemeralIsGood(cfg: Config)
    requires GoodConfig(cfg) && cfg.ephemeral.Some? && GoodField(cfg.ephemeral.value)
    ensures GoodMount(DefaultMounts(cfg.ephemeral, cfg.swapDevice, cfg.defvals)[0])
  {
    hide GoodField;
    PlainFieldsAreGood();
  }

  lemma DefaultsAreGood(cfg: Config)
    requires GoodConfig(cfg)
    ensures forall d :: d in DefaultMounts(cfg.ephemeral, cfg.swapDevice, cfg.defvals) ==> GoodMount(d)
    ensures cfg.swapFile.Some? ==> GoodMount(SwapEntry(cfg.swapFile.value))
  {
    hide GoodField, GoodMount;
    var three := [cfg.ephemeral, cfg.swapDevice, cfg.swapFile];
    assert three[0] == cfg.ephemeral && three[1] == cfg.swapDevice && three[2] == cfg.swapFile;
    assert GoodSet(three);
    if cfg.ephemeral.Some? {
      EphemeralIsGood(cfg);
    }
    if cfg.swapDevice.Some? {
      SwapIsGood(cfg.swapDevice.value);
    }
    if cfg.swapFile.Some? {
      SwapIsGood(cfg.swapFile.value);
    }
  }

  lemma MountsAreGood(cfg: Config)
    requires GoodConfig(cfg)
    ensures forall row :: row in Actlist(cfg) ==> GoodMount(row)
  {
    hide GoodMount, Filled, Resolved, DefaultMounts, WithDefaults, SwapEntry, GoodSet;
    var rows, defaults := AllResolved(cfg.rows, cfg.defvals), DefaultMounts(cfg.ephemeral, cfg.swapDevice, cfg.defvals);
    DefaultsAreGood(cfg);
    WithDefaultsIn(rows, defaults);
    forall row | row in rows && Field(row, 1).Some? ensures GoodMount(row) {
      var i :| 0 <= i < |rows| && rows[i] == row;
      SurvivesIff(cfg.rows, cfg.defvals, i);
      FilledIsGood(cfg.rows[i], cfg);
    }
  }

  lemma GoodTexts(actlist: seq<Row>)
    requires forall row :: row in actlist ==> GoodMount(row)
    ensures AllJoinable(actlist) && GoodRows(AllTexts(actlist))
  {
    hide GoodField;
    forall i | 0 <= i < |actlist| ensures GoodRow(Texts(actlist[i])) {
      assert actlist[i] in actlist && GoodMount(actlist[i]);
    }
  }

  /** With good fields fstab is always written, every mount is in it after what others wrote,
      and updating it again changes nothing. */
  lemma UpdateTwice(cfg: Config, contents: string)
    requires GoodConfig(cfg)
    ensures var once := FstabAfter(cfg, contents);
            && once.Some? && FstabAfter(cfg, once.value) == once
            && (Actlist(cfg) != [] ==> SplitLines(once.value) == Foreign(SplitLines(contents)) + MountLines(cfg))
  {
    hide Actlist, Rewritten, GoodMount, GoodRow, GoodSet, Joinable, SplitLines, Foreign, CcLines;
    var acts := Actlist(cfg);
    MountsAreGood(cfg);
    GoodTexts(acts);
    LastRewriteCounts(AllTexts(acts), AllTexts(acts), contents);
    RewrittenLines(AllTexts(acts), contents);
  }

  /** For any configuration that gets as far as writing lines without breaks: updating again
      changes nothing exactly when every line is recognized. */
  lemma UpdateTwiceIff(cfg: Config, contents: string)
    requires |cfg.defvals| > 3 && FstabAfter(cfg, contents).Some?
    requires forall l :: l in MountLines(cfg) ==> NoBreak(l)
    ensures FstabAfter(cfg, FstabAfter(cfg, contents).value) == FstabAfter(cfg, contents) <==>
            forall l :: l in MountLines(cfg) ==> Managed(l)
  {
    hide Actlist, Rewritten, NoBreak, CcLine, Managed, Joinable, CcLines, AllTexts;
    var texts, lines := AllTexts(Actlist(cfg)), MountLines(cfg);
    ActlistIsWide(cfg);
    WideTexts(Actlist(cfg));
    forall i | 0 <= i < |texts| ensures lines[i] == CcLine(texts[i]) && lines[i] in lines {}
    TwiceIsOnceIff(texts, contents);
  }

  lemma ResolvedDevice(rows: seq<Row>, defvals: Row, i: nat)
    requires i < |rows| && |defvals| >= 2
    ensures Field(Resolved(rows, defvals, |rows|, i), 0) == Field(Filled(rows[i], defvals), 0)
  {
    hide Filled, ClearedBefore;
  }

  lemma HasDeviceIff(cfg: Config, device: Option<string>)
    requires |cfg.defvals| > 3
    ensures HasDevice(AllResolved(cfg.rows, cfg.defvals), device)
            <==> exists row :: row in cfg.rows && Field(Filled(row, cfg.defvals), 0) == device
  {
    hide Filled, Resolved;
    var rows := AllResolved(cfg.rows, cfg.defvals);
    forall i | 0 <= i < |rows| ensures Field(rows[i], 0) == Field(Filled(cfg.rows[i], cfg.defvals), 0) && rows[i] in rows {
      ResolvedDevice(cfg.rows, cfg.defvals, i);
    }
  }

  /** The ephemeral disk is mounted by default exactly when no entry names it: one without a
      mount point, which mounts nothing itself, is enough to keep the default out. */
  lemma EphemeralIsAddedIff(cfg: Config)
    requires |cfg.defvals| > 3 && cfg.ephemeral.Some?
    ensures var defaults := DefaultMounts(cfg.ephemeral, cfg.swapDevice, cfg.defvals);
            var mounts := WithDefaults(AllResolved(cfg.rows, cfg.defvals), defaults);
            (exists i :: |cfg.rows| <= i < |mounts| && mounts[i] == defaults[0])
            <==> forall row :: row in cfg.rows ==> Field(Filled(row, cfg.defvals), 0) != cfg.ephemeral
  {
    hide Filled, HasDevice, AllResolved;
    var rows, defaults := AllResolved(cfg.rows, cfg.defvals), DefaultMounts(cfg.ephemeral, cfg.swapDevice, cfg.defvals);
    var mounts := WithDefaults(rows, defaults);
    HasDeviceIff(cfg, cfg.ephemeral);
    DefaultsAddedIff(rows, defaults);
    if HasDevice(rows, cfg.ephemeral) {
      forall i | |rows| <= i < |mounts| ensures mounts[i] != defaults[0] {
        HasDeviceGrows(rows, mounts[..i], cfg.ephemeral);
      }
    } else {
      DefaultsAddedIff(rows + [defaults[0]], defaults[1..]);
      assert mounts[|rows|] == defaults[0];
    }
  }

  // ---------------------------------------------------------------- the lines themselves

  /** The lines are the fields with tabs between them, and the comment in the fourth. */
  function LineOf(a: string, b: string, c: string, d: string, e: string, f: string): string {
    Join([a, b, c, d + ",comment=cloudconfig", e, f], "\t")
  }

  lemma LineOfSix(row: Row, a: string, b: string, c: string, d: string, e: string, f: string)
    requires row == [Some(a), Some(b), Some(c), Some(d), Some(e), Some(f)]
    ensures CcLine(Texts(row)) == LineOf(a, b, c, d, e, f)
  {
    hide Join;
    assert Texts(row) == [a, b, c, d, e, f];
    var g := d + "," + COMMENT;
    assert g == d + ",comment=cloudconfig";
    assert Claimed([a, b, c, d, e, f]) == [a, b, c, g, e, f];
  }

  /** With no entries in the configuration and an ephemeral disk, that is what is mounted, with the
      default options. */
  lemma EphemeralLine(device: string, options: string, defvals: Row)
    requires |defvals| > 3 && defvals[3] == Some(options)
    ensures MountLines(Config([], defvals, Some(device), None, None)) == [LineOf(device, "/mnt", "auto", options, "0", "2")]
  {
    hide CcLine, Join, LineOf;
    var cfg := Config([], defvals, Some(device), None, None);
    var row := [Some(device), Some("/mnt"), Some("auto"), Some(options), Some("0"), Some("2")];
    assert DefaultMounts(Some(device), None, defvals) == [row];
    OnlyDefault(defvals, row);
    assert Actlist(cfg) == [row] + [];
    LineOfSix(row, device, "/mnt", "auto", options, "0", "2");
    OneLine(row);
  }

  lemma OnlyDefault(defvals: Row, row: Row)
    requires |defvals| > 3 && Field(row, 1).Some?
    ensures Active(WithDefaults(AllResolved([], defvals), [row])) == [row]
  {
    assert AllResolved([], defvals) == [];
    assert !HasDevice([], Field(row, 0));
    assert WithDefaults([], [row]) == WithDefaults([] + [row], [row][1..]) == [row];
    assert [row][..0] == [] && Active([]) == [];
  }

  lemma OneLine(row: Row)
    requires |row| > 3
    ensures WideRows(AllTexts([row])) && CcLines(AllTexts([row])) == [CcLine(Texts(row))]
  {
    hide CcLine;
    assert AllTexts([row]) == [Texts(row)] && [Texts(row)][1..] == [];
  }

  /** A swap file and a swap device are written alike. */
  lemma SwapLine(file: string, defvals: Row)
    requires |defvals| > 3
    ensures MountLines(Config([], defvals, None, None, Some(file))) == [LineOf(file, "none", "swap", "sw", "0", "0")]
    ensures MountLines(Config([], defvals, None, Some(file), None)) == [LineOf(file, "none", "swap", "sw", "0", "0")]
  {
    hide CcLine, Join, WithDefaults, LineOf;
    var row := SwapEntry(file);
    LineOfSix(row, file, "none", "swap", "sw", "0", "0");
    OneLine(row);
    OnlyDefault(defvals, row);
    NothingMounted(defvals);
    assert DefaultMounts(None, Some(file), defvals) == [row] && DefaultMounts(None, None, defvals) == [];
    assert Actlist(Config([], defvals, None, None, Some(file))) == [] + [row];
    assert Actlist(Config([], defvals, None, Some(file), None)) == [row] + [];
  }

  lemma NothingMounted(defvals: Row)
    requires |defvals| > 3
    ensures Active(WithDefaults(AllResolved([], defvals), [])) == []
  {
    assert AllResolved([], defvals) == [];
  }

  /** The swap file comes after all else. */
  lemma SwapFileIsLast(cfg: Config)
    requires |cfg.defvals| > 3 && cfg.swapFile.Some?
    ensures MountLines(cfg) == MountLines(cfg.(swapFile := None)) + [LineOf(cfg.swapFile.value, "none", "swap", "sw", "0", "0")]
  {
    hide CcLine, Join, LineOf, WithDefaults, Active, AllResolved, DefaultMounts;
    var row, without := SwapEntry(cfg.swapFile.value), Actlist(cfg.(swapFile := None));
    LineOfSix(row, cfg.swapFile.value, "none", "swap", "sw", "0", "0");
    ActlistIsWide(cfg);
    ActlistIsWide(cfg.(swapFile := None));
    WideTexts(Actlist(cfg));
    WideTexts(without);
    assert Actlist(cfg) == without + [row];
    var lines := MountLines(cfg);
    forall i | 0 <= i < |without| ensures lines[i] == MountLines(cfg.(swapFile := None))[i] {
      assert AllTexts(Actlist(cfg))[i] == AllTexts(without)[i];
    }
  }

  /** Options that are not set are written as Python prints them. */
  lemma UnsetOptionsLine(a: string, b: string, c: string, e: string, f: string)
    ensures CcLine(Texts([Some(a), Some(b), Some(c), None, Some(e), Some(f)])) == LineOf(a, b, c, "None", e, f)
  {
    hide Join;
    var row := [Some(a), Some(b), Some(c), None, Some(e), Some(f)];
    assert Texts(row) == [a, b, c, "None", e, f];
    assert "None" + "," + COMMENT == "None" + ",comment=cloudconfig";
    assert Claimed([a, b, c, "None", e, f]) == [a, b, c, "None" + ",comment=cloudconfig", e, f];
  }

  /** Fstab is not written exactly when some mount has a field that is not set, but for its
      options. */
  lemma NotWrittenIff(cfg: Config, contents: string)
    requires |cfg.defvals| > 3
    ensures FstabAfter(cfg, contents).None? <==>
            exists row: Row, j :: row in Actlist(cfg) && 0 <= j < |row| && j != 3 && row[j].None?
  {
    hide Actlist, Rewritten;
    ActlistIsWide(cfg);
  }
}
