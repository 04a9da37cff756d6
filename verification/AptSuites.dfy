/** Commenting out the disabled suites of an apt sources list. */
module AptSuites {
  import opened Options
  import opened Strings

  const PREFIX := "# suite disabled by cloud-init: "

  function MapKnownSuites(suite: string): string {
    if suite == "updates" then "$RELEASE-updates"
    else if suite == "backports" then "$RELEASE-backports"
    else if suite == "security" then "$RELEASE-security"
    else if suite == "proposed" then "$RELEASE-proposed"
    else if suite == "release" then "$RELEASE"
    else suite
  }

  /** The template engine, with the release it fills in. */
  type Render = string -> string

  function ReleaseSuite(render: Render, suite: string): string {
    render(MapKnownSuites(suite))
  }

  function ReleaseSuites(render: Render, disabled: seq<string>): (r: set<string>)
    ensures forall s :: s in disabled ==> ReleaseSuite(render, s) in r
    ensures forall x :: x in r ==> exists s :: s in disabled && ReleaseSuite(render, s) == x
  {
    set s | s in disabled :: ReleaseSuite(render, s)
  }

  // ---------------------------------------------------------------- one line

  /** The suite a line is about; `Broken` has columns but none where its suite should be. */
  datatype Line = Plain | Broken | Suite(name: string)

  /** The first column that ends the options, if any does. */
  function OptionsEnd(cols: seq<string>): (n: nat)
    ensures n <= |cols|
    ensures n < |cols| ==> EndsWith(cols[n], "]")
    ensures forall i :: 0 <= i < n ==> !EndsWith(cols[i], "]")
  {
    if cols == [] || EndsWith(cols[0], "]") then 0 else 1 + OptionsEnd(cols[1..])
  }

  /** The column of the suite: the third one, or the second after the options, which may
      have blanks in them. */
  function SuiteColumn(cols: seq<string>): nat
    requires |cols| > 1
  {
    if !StartsWith(cols[1], "[") then 2
    else
      var n := OptionsEnd(cols[1..]);
      if n < |cols| - 1 then n + 3 else n + 2
  }

  function Classify(line: string): Line {
    if StartsWith(line, "#") then Plain
    else
      var cols := Words(line);
      if |cols| <= 1 then Plain
      else if SuiteColumn(cols) >= |cols| then Broken
      else Suite(cols[SuiteColumn(cols)])
  }

  function DisableLine(line: string, suites: set<string>): string {
    if Classify(line).Suite? && Classify(line).name in suites then PREFIX + line else line
  }

  // ---------------------------------------------------------------- the single pass

  function DisableLines(lines: seq<string>, suites: set<string>): (r: seq<string>)
    ensures |r| == |lines| && forall i :: 0 <= i < |r| ==> r[i] == DisableLine(lines[i], suites)
  {
    if lines == [] then [] else [DisableLine(lines[0], suites)] + DisableLines(lines[1..], suites)
  }

  predicate AnyBroken(lines: seq<string>) {
    exists l :: l in lines && Classify(l).Broken?
  }

  /** Comments out the lines of all the suites at once; a broken line raises. */
  function SinglePass(src: string, suites: set<string>): Option<string> {
    if AnyBroken(SplitLinesKeep(src)) then None
    else Some(Concat(DisableLines(SplitLinesKeep(src), suites)))
  }

  /** One pass for each suite. */
  function Passes(render: Render, disabled: seq<string>, src: string): Option<string> {
    if disabled == [] then Some(src)
    else
      var before := Passes(render, disabled[..|disabled| - 1], src);
      if before.None? then None
      else SinglePass(before.value, {ReleaseSuite(render, disabled[|disabled| - 1])})
  }

  /** After options that end in column `m` come the address and then the suite. */
  lemma SuiteAfterOptions(cols: seq<string>, m: nat)
    requires 1 <= m < |cols| && StartsWith(cols[1], "[") && EndsWith(cols[m], "]")
    requires forall i :: 1 <= i < m ==> !EndsWith(cols[i], "]")
    ensures SuiteColumn(cols) == m + 2
  {
    var n := OptionsEnd(cols[1..]);
    assert cols[1..][m - 1] == cols[m];
    assert n <= m - 1;
  }

  lemma PassesStep(render: Render, disabled: seq<string>, src: string, i: nat)
    requires i < |disabled|
    ensures var before := Passes(render, disabled[..i], src);
            Passes(render, disabled[..i + 1], src) ==
            if before.None? then None else SinglePass(before.value, {ReleaseSuite(render, disabled[i])})
  {
    hide SinglePass, ReleaseSuite;
    assert disabled[..i + 1][..i] == disabled[..i];
  }

  lemma {:induction false} NoPassLeft(render: Render, disabled: seq<string>, src: string, i: nat)
    requires i <= |disabled| && Passes(render, disabled[..i], src).None?
    ensures Passes(render, disabled, src).None?
    decreases |disabled| - i
  {
    hide SinglePass, ReleaseSuite;
    if i == |disabled| {
      assert disabled[..i] == disabled;
    } else {
      PassesStep(render, disabled, src, i);
      NoPassLeft(render, disabled, src, i + 1);
    }
  }

  lemma ConcatSnoc(lines: seq<string>, l: string)
    ensures Concat(lines + [l]) == Concat(lines) + l
  {
    if lines != [] {
      assert (lines + [l])[1..] == lines[1..] + [l];
      ConcatSnoc(lines[1..], l);
    }
  }

  /** Whether the column is there, and the suite in it. */
  method SuiteOf(line: string) returns (c: Line)
    requires !StartsWith(line, "#")
    ensures c == Classify(line)
  {
    hide Words;
    var cols := Words(line);
    if |cols| <= 1 {
      return Plain;
    }
    var pcol := 2;
    if StartsWith(cols[1], "[") {
      for i := 1 to |cols|
        invariant pcol == i + 1
        invariant forall j :: 0 <= j < i - 1 ==> !EndsWith(cols[1..][j], "]")
      {
        pcol := pcol + 1;
        if EndsWith(cols[i], "]") {
          assert OptionsEnd(cols[1..]) == i - 1;
          break;
        }
      }
    }
    if pcol >= |cols| {
      return Broken;
    }
    return Suite(cols[pcol]);
  }

  lemma DisableStep(lines: seq<string>, suites: set<string>, i: nat)
    requires i < |lines|
    ensures Concat(DisableLines(lines[..i + 1], suites)) ==
            Concat(DisableLines(lines[..i], suites)) + DisableLine(lines[i], suites)
  {
    hide DisableLine, Classify;
    assert DisableLines(lines[..i + 1], suites) == DisableLines(lines[..i], suites) + [DisableLine(lines[i], suites)];
    ConcatSnoc(DisableLines(lines[..i], suites), DisableLine(lines[i], suites));
  }

  /** One pass over the text, for one suite. */
  method DisableSuite(src: string, releaseSuite: string) returns (r: Option<string>)
    ensures r == SinglePass(src, {releaseSuite})
  {
    hide SplitLinesKeep, Classify, DisableLines;
    var newsrc := "";
    var lines := SplitLinesKeep(src);
    assert DisableLines(lines[..0], {releaseSuite}) == [];
    for i := 0 to |lines|
      invariant newsrc == Concat(DisableLines(lines[..i], {releaseSuite}))
      invariant !AnyBroken(lines[..i])
    {
      var line := lines[i];
      DisableStep(lines, {releaseSuite}, i);
      assert lines[..i + 1] == lines[..i] + [line];
      if StartsWith(line, "#") {
        Comment(line);
        newsrc := newsrc + line;
        continue;
      }
      var c := SuiteOf(line);
      if c.Broken? {
        assert line in lines;
        return None;
      }
      if c.Suite? && c.name == releaseSuite {
        line := PREFIX + line;
      }
      newsrc := newsrc + line;
    }
    assert lines[..|lines|] == lines;
    return Some(newsrc);
  }

  lemma Comment(line: string)
    requires StartsWith(line, "#")
    ensures Classify(line) == Plain
  {
  }

  method DisableSuites(render: Render, disabled: seq<string>, src: string) returns (r: Option<string>)
    ensures r == Passes(render, disabled, src)
  {
    hide SinglePass, ReleaseSuite;
    if disabled == [] {
      return Some(src);
    }
    var retsrc := src;
    for k := 0 to |disabled|
      invariant Passes(render, disabled[..k], src) == Some(retsrc)
    {
      PassesStep(render, disabled, src, k);
      var releaseSuite := ReleaseSuite(render, disabled[k]);
      var newsrc := DisableSuite(retsrc, releaseSuite);
      if newsrc.None? {
        NoPassLeft(render, disabled, src, k + 1);
        return None;
      }
      retsrc := newsrc.value;
    }
    assert disabled[..|disabled|] == disabled;
    return Some(retsrc);
  }

  // ---------------------------------------------------------------- lines stay lines

  /** The lines are what their concatenation splits into. */
  predicate AreLines(lines: seq<string>) {
    lines != [] ==>
      && lines[0] != ""
      && NextLine(Concat(lines)) == |lines[0]|
      && AreLines(lines[1..])
  }

  lemma {:induction false} SplitIsLines(s: string)
    ensures AreLines(SplitLinesKeep(s)) && Concat(SplitLinesKeep(s)) == s
    decreases |s|
  {
    hide NextLine;
    if s != "" {
      var n := NextLine(s);
      var lines := SplitLinesKeep(s);
      SplitIsLines(s[n..]);
      assert lines[1..] == SplitLinesKeep(s[n..]);
      assert Concat(lines) == s[..n] + s[n..] == s;
    }
  }

  lemma {:induction false} LinesAreSplit(lines: seq<string>)
    requires AreLines(lines)
    ensures SplitLinesKeep(Concat(lines)) == lines
  {
    if lines != [] {
      var s := Concat(lines);
      assert s[..|lines[0]|] == lines[0] && s[|lines[0]|..] == Concat(lines[1..]);
      LinesAreSplit(lines[1..]);
    }
  }

  lemma {:induction false} LineEndAfter(p: string, s: string)
    requires NoBreak(p)
    ensures LineEnd(p + s) == |p| + LineEnd(s)
  {
    if p == "" {
      assert p + s == s;
    } else {
      assert p[0] in p && (p + s)[1..] == p[1..] + s;
      LineEndAfter(p[1..], s);
    }
  }

  lemma NextLineAfter(p: string, s: string)
    requires NoBreak(p)
    ensures NextLine(p + s) == |p| + NextLine(s)
  {
    LineEndAfter(p, s);
  }

  lemma {:induction false} LineEndWithin(l: string, rest: string)
    ensures if LineEnd(l) < |l| then LineEnd(l + rest) == LineEnd(l) else LineEnd(l + rest) >= |l|
  {
    if l != "" {
      assert (l + rest)[0] == l[0];
      if !IsBreak(l[0]) {
        assert (l + rest)[1..] == l[1..] + rest;
        LineEndWithin(l[1..], rest);
      }
    }
  }

  /** Putting a comment sign before what follows a line does not move its end. */
  lemma NextLineKept(l: string, a: string, b: string)
    requires l != "" && NextLine(l + a) == |l|
    requires if a == "" then b == "" else b != "" && (b[0] == a[0] || b[0] == '#')
    ensures NextLine(l + b) == |l|
  {
    if a != "" {
      LineEndWithin(l, a);
      LineEndWithin(l, b);
      var n := LineEnd(l);
      assert (l + a)[n] == l[n] == (l + b)[n];
    }
  }

  // ---------------------------------------------------------------- many passes are one

  lemma DisableHead(l: string, suites: set<string>)
    requires l != ""
    ensures var d := DisableLine(l, suites); d != "" && (d[0] == l[0] || d[0] == '#')
  {
    hide Classify;
  }

  lemma DisableEnd(l: string, suites: set<string>, a: string, b: string)
    requires l != "" && NextLine(l + a) == |l|
    requires if a == "" then b == "" else b != "" && (b[0] == a[0] || b[0] == '#')
    ensures NextLine(DisableLine(l, suites) + b) == |DisableLine(l, suites)|
  {
    hide Classify, NextLine, NoBreak;
    NextLineKept(l, a, b);
    PrefixIsUnbroken();
    EndAfter(PREFIX, l, b);
  }

  lemma EndAfter(p: string, l: string, b: string)
    requires NoBreak(p) && NextLine(l + b) == |l|
    ensures NextLine(p + l + b) == |p + l|
  {
    hide NextLine;
    assert p + l + b == p + (l + b);
    NextLineAfter(p, l + b);
  }

  lemma PrefixIsUnbroken()
    ensures NoBreak(PREFIX)
  {
  }

  lemma {:induction false} DisabledAreLines(lines: seq<string>, suites: set<string>)
    requires AreLines(lines)
    ensures AreLines(DisableLines(lines, suites))
    ensures var a, b := Concat(lines), Concat(DisableLines(lines, suites));
            if a == "" then b == "" else b != "" && (b[0] == a[0] || b[0] == '#')
  {
    hide DisableLine, NextLine;
    if lines != [] {
      var l, rest := lines[0], lines[1..];
      DisabledAreLines(rest, suites);
      DisableHead(l, suites);
      DisableEnd(l, suites, Concat(rest), Concat(DisableLines(rest, suites)));
      assert DisableLines(lines, suites)[1..] == DisableLines(rest, suites);
    }
  }

  /** What the pass makes of the lines is what the text it writes splits into. */
  lemma PassLines(src: string, suites: set<string>)
    ensures SplitLinesKeep(Concat(DisableLines(SplitLinesKeep(src), suites))) == DisableLines(SplitLinesKeep(src), suites)
  {
    SplitIsLines(src);
    DisabledAreLines(SplitLinesKeep(src), suites);
    LinesAreSplit(DisableLines(SplitLinesKeep(src), suites));
  }

  lemma DisableTwice(l: string, a: set<string>, b: set<string>)
    ensures DisableLine(DisableLine(l, a), b) == DisableLine(l, a + b)
    ensures Classify(DisableLine(l, a)).Broken? == Classify(l).Broken?
  {
    hide Words, SuiteColumn;
    assert StartsWith(PREFIX + l, "#");
  }

  lemma PassTwice(lines: seq<string>, a: set<string>, b: set<string>)
    ensures DisableLines(DisableLines(lines, a), b) == DisableLines(lines, a + b)
    ensures AnyBroken(DisableLines(lines, a)) == AnyBroken(lines)
  {
    hide DisableLine, Classify;
    forall i | 0 <= i < |lines|
      ensures DisableLine(DisableLine(lines[i], a), b) == DisableLine(lines[i], a + b)
      ensures Classify(DisableLine(lines[i], a)).Broken? == Classify(lines[i]).Broken?
    {
      DisableTwice(lines[i], a, b);
    }
    var d := DisableLines(lines, a);
    if l :| l in lines && Classify(l).Broken? {
      var i :| 0 <= i < |lines| && lines[i] == l;
      assert d[i] in d;
    }
    if l :| l in d && Classify(l).Broken? {
      var i :| 0 <= i < |lines| && d[i] == l;
      assert lines[i] in lines;
    }
  }

  /** Two passes are one pass for all the suites of both. */
  lemma SinglePassTwice(src: string, a: set<string>, b: set<string>)
    ensures SinglePass(src, a).Some? ==> SinglePass(SinglePass(src, a).value, b) == SinglePass(src, a + b)
    ensures SinglePass(src, a).None? <==> SinglePass(src, b).None?
  {
    hide SplitLinesKeep, Concat, DisableLines, AnyBroken;
    PassLines(src, a);
    PassTwice(SplitLinesKeep(src), a, b);
  }

  lemma NoSuites(render: Render)
    ensures ReleaseSuites(render, []) == {}
  {
  }

  lemma SuitesStep(render: Render, disabled: seq<string>)
    requires disabled != []
    ensures var n := |disabled| - 1;
            ReleaseSuites(render, disabled) == ReleaseSuites(render, disabled[..n]) + {ReleaseSuite(render, disabled[n])}
  {
    hide ReleaseSuite;
    var n := |disabled| - 1;
    assert disabled == disabled[..n] + [disabled[n]];
  }

  /** The passes raise if some line has no suite column, and otherwise comment out, in one
      go, the lines of every suite that is disabled. */
  lemma {:induction false} PassesAreOne(render: Render, disabled: seq<string>, src: string)
    ensures Passes(render, disabled, src) ==
            if disabled == [] then Some(src) else SinglePass(src, ReleaseSuites(render, disabled))
  {
    hide SinglePass, ReleaseSuite, ReleaseSuites;
    if disabled != [] {
      var n := |disabled| - 1;
      var init, last := disabled[..n], ReleaseSuite(render, disabled[n]);
      PassesAreOne(render, init, src);
      if init == [] {
        SuitesStep(render, disabled);
        NoSuites(render);
        assert ReleaseSuites(render, disabled) == {} + {last} == {last};
      } else {
        SinglePassTwice(src, ReleaseSuites(render, init), {last});
        SinglePassTwice(src, ReleaseSuites(render, init), ReleaseSuites(render, disabled));
        SuitesStep(render, disabled);
      }
    }
  }

  /** Neither the order nor repetitions of the suites matter. */
  lemma OrderDoesNotMatter(render: Render, a: seq<string>, b: seq<string>, src: string)
    requires forall s :: s in a <==> s in b
    ensures Passes(render, a, src) == Passes(render, b, src)
  {
    hide SinglePass, ReleaseSuite;
    PassesAreOne(render, a, src);
    PassesAreOne(render, b, src);
    assert ReleaseSuites(render, a) == ReleaseSuites(render, b);
    assert a == [] <==> b == [] by {
      assert a != [] ==> a[0] in b;
      assert b != [] ==> b[0] in a;
    }
  }

  /** Disabling again changes nothing. */
  lemma DisablingIsIdempotent(render: Render, disabled: seq<string>, src: string)
    requires Passes(render, disabled, src).Some?
    ensures Passes(render, disabled, Passes(render, disabled, src).value) == Passes(render, disabled, src)
  {
    hide SinglePass, ReleaseSuite;
    PassesAreOne(render, disabled, src);
    if disabled != [] {
      var suites := ReleaseSuites(render, disabled);
      SinglePassTwice(src, suites, suites);
      assert suites + suites == suites;
      PassesAreOne(render, disabled, Passes(render, disabled, src).value);
    }
  }

  // ---------------------------------------------------------------- enabling again

  function EnableLine(line: string): string {
    if StartsWith(line, PREFIX) then line[|PREFIX|..] else line
  }

  function EnableLines(lines: seq<string>): (r: seq<string>)
    ensures |r| == |lines| && forall i :: 0 <= i < |r| ==> r[i] == EnableLine(lines[i])
  {
    if lines == [] then [] else [EnableLine(lines[0])] + EnableLines(lines[1..])
  }

  lemma {:induction false} ConcatShorter(a: seq<string>, b: seq<string>)
    requires |a| == |b| && forall i :: 0 <= i < |a| ==> |a[i]| <= |b[i]|
    ensures |Concat(a)| <= |Concat(b)|
    ensures (exists i :: 0 <= i < |a| && |a[i]| < |b[i]|) ==> |Concat(a)| < |Concat(b)|
  {
    if a != [] {
      ConcatShorter(a[1..], b[1..]);
      if i :| 0 <= i < |a| && |a[i]| < |b[i]| {
        assert i > 0 ==> a[1..][i - 1] == a[i] && b[1..][i - 1] == b[i];
      }
    }
  }

  lemma PrefixIsComment(l: string, suites: set<string>)
    requires StartsWith(l, PREFIX)
    ensures DisableLine(l, suites) == l && |EnableLine(l)| < |l|
  {
    assert PREFIX[..1] == "#";
    assert l[..1] == "#";
    Comment(l);
  }

  lemma DisabledComesBack(l: string, suites: set<string>)
    requires !StartsWith(l, PREFIX)
    ensures EnableLine(DisableLine(l, suites)) == l
  {
    hide Classify;
    assert (PREFIX + l)[..|PREFIX|] == PREFIX;
    assert (PREFIX + l)[|PREFIX|..] == l;
  }

  predicate HasPrefix(l: string) {
    StartsWith(l, PREFIX)
  }

  predicate NonePrefixed(lines: seq<string>) {
    forall i :: 0 <= i < |lines| ==> !HasPrefix(lines[i])
  }

  lemma LineComesBack(l: string, suites: set<string>)
    ensures var back := EnableLine(DisableLine(l, suites)); if HasPrefix(l) then |back| < |l| else back == l
  {
    hide DisableLine, EnableLine, StartsWith;
    if HasPrefix(l) {
      PrefixIsComment(l, suites);
    } else {
      DisabledComesBack(l, suites);
    }
  }

  lemma LinesComeBackIff(lines: seq<string>, suites: set<string>)
    ensures Concat(EnableLines(DisableLines(lines, suites))) == Concat(lines) <==> NonePrefixed(lines)
  {
    hide DisableLine, EnableLine, HasPrefix, Concat;
    var back := EnableLines(DisableLines(lines, suites));
    forall i | 0 <= i < |lines| ensures if HasPrefix(lines[i]) then |back[i]| < |lines[i]| else back[i] == lines[i] {
      LineComesBack(lines[i], suites);
    }
    ConcatShorter(back, lines);
    if NonePrefixed(lines) {
      assert back == lines;
    }
  }

  /** Stripping the prefix from the lines gives the text back, if and only if no line had
      it before. */
  lemma StrippingRestoresIff(render: Render, disabled: seq<string>, src: string)
    requires Passes(render, disabled, src).Some?
    ensures Concat(EnableLines(SplitLinesKeep(Passes(render, disabled, src).value))) == src
            <==> NonePrefixed(SplitLinesKeep(src))
  {
    hide SplitLinesKeep, ReleaseSuite, Concat, DisableLines, EnableLines, NonePrefixed;
    PassesAreOne(render, disabled, src);
    var lines := SplitLinesKeep(src);
    var suites := if disabled == [] then {} else ReleaseSuites(render, disabled);
    NoSuitesNoChange(lines);
    PassLines(src, suites);
    SplitIsLines(src);
    LinesComeBackIff(lines, suites);
  }

  lemma NoSuitesNoChange(lines: seq<string>)
    ensures DisableLines(lines, {}) == lines
  {
  }

  // ---------------------------------------------------------------- names of suites

  /** The four short names of pockets stand for those of the release, `release` for the release
      itself, and any other name for what it renders to. */
  lemma SuiteNames(render: Render, suite: string)
    ensures suite in {"updates", "backports", "security", "proposed"} ==> ReleaseSuite(render, suite) == render("$RELEASE-" + suite)
    ensures suite == "release" ==> ReleaseSuite(render, suite) == render("$RELEASE")
    ensures suite !in {"updates", "backports", "security", "proposed", "release"} ==> ReleaseSuite(render, suite) == render(suite)
  {
    assert "$RELEASE-" + "updates" == "$RELEASE-updates" && "$RELEASE-" + "backports" == "$RELEASE-backports";
    assert "$RELEASE-" + "security" == "$RELEASE-security" && "$RELEASE-" + "proposed" == "$RELEASE-proposed";
  }

  /** A line for a suite that is disabled, without options, becomes a comment that says so. */
  lemma DisabledLine(kind: string, address: string, suite: string, rest: string, suites: set<string>)
    requires kind != "" && NoSpace(kind) && kind[0] != '#'
    requires address != "" && NoSpace(address) && address[0] != '['
    requires suite != "" && NoSpace(suite) && (rest == "" || IsSpace(rest[0]))
    ensures var line := kind + " " + address + " " + suite + rest;
            DisableLine(line, suites) == if suite in suites then "# suite disabled by cloud-init: " + line else line
  {
    hide Words, IsSpace, NoSpace;
    var line := kind + " " + address + " " + suite + rest;
    assert line == kind + (" " + (address + (" " + (suite + rest))));
    BlankIsSpace();
    WordsFirst(kind, " " + (address + (" " + (suite + rest))));
    WordsSkip(address + (" " + (suite + rest)));
    WordsFirst(address, " " + (suite + rest));
    WordsSkip(suite + rest);
    WordsFirst(suite, rest);
    var cols := Words(line);
    assert cols == [kind] + ([address] + ([suite] + Words(rest)));
    assert cols[1] == address && cols[2] == suite && line[0] == kind[0];
    assert line[..1] == [line[0]] && address[..1] == [address[0]];
  }

  lemma BlankIsSpace()
    ensures IsSpace(' ')
  {
  }

  /** A line of two columns, neither a comment nor with options, has no suite, and raises. */
  lemma TwoColumnsRaise(kind: string, address: string, blanks: string)
    requires kind != "" && NoSpace(kind) && kind[0] != '#'
    requires address != "" && NoSpace(address) && address[0] != '['
    requires forall c :: c in blanks ==> IsSpace(c)
    ensures Classify(kind + " " + address + blanks).Broken?
  {
    hide Words, IsSpace, NoSpace, OptionsEnd, LStrip;
    var line := kind + " " + address + blanks;
    assert line == kind + (" " + (address + blanks));
    BlankIsSpace();
    WordsFirst(kind, " " + (address + blanks));
    WordsSkip(address + blanks);
    assert blanks != "" ==> blanks[0] in blanks;
    WordsFirst(address, blanks);
    LStripSpaces(blanks, "");
    assert blanks + "" == blanks;
    WordsOfStripped(blanks, "");
    NoWordsAtAll();
    var cols := Words(line);
    assert cols == [kind] + ([address] + []);
    assert line[0] == kind[0] && line[..1] == [line[0]] && address[..1] == [address[0]];
  }

  lemma NoWordsAtAll()
    ensures Words("") == []
  {
  }
}
