/** The few string operations of Python the models rely on. */
module Strings {

  /** What `str.split()` and `str.strip()` take for white space. */
  predicate IsSpace(c: char) {
    || '\t' <= c <= '\r' || '\U{1c}' <= c <= ' ' || c == '\U{85}' || c == '\U{a0}' || c == '\U{1680}'
    || '\U{2000}' <= c <= '\U{200a}' || c == '\U{2028}' || c == '\U{2029}' || c == '\U{202f}'
    || c == '\U{205f}' || c == '\U{3000}'
  }

  predicate NoSpace(s: string) {
    forall c :: c in s ==> !IsSpace(c)
  }

  /** No white space at either end. */
  predicate Trimmed(s: string) {
    s == "" || (!IsSpace(s[0]) && !IsSpace(s[|s| - 1]))
  }

  function LStrip(s: string): (r: string)
    ensures |r| <= |s| && r == s[|s| - |r|..]
    ensures r == "" || !IsSpace(r[0])
    ensures forall c :: c in s[..|s| - |r|] ==> IsSpace(c)
  {
    if s != "" && IsSpace(s[0]) then LStrip(s[1..]) else s
  }

  function RStrip(s: string): (r: string)
    ensures |r| <= |s| && r == s[..|r|]
    ensures r == "" || !IsSpace(r[|r| - 1])
    ensures forall c :: c in s[|r|..] ==> IsSpace(c)
  {
    if s != "" && IsSpace(s[|s| - 1]) then RStrip(s[..|s| - 1]) else s
  }

  function Strip(s: string): (r: string)
    ensures Trimmed(r) && |r| <= |s|
  {
    RStrip(LStrip(s))
  }

  lemma StripWithin(s: string)
    ensures forall c :: c in Strip(s) ==> c in s
  {
    hide IsSpace;
    var l := LStrip(s);
    assert forall c :: c in l ==> c in s;
    assert forall c :: c in RStrip(l) ==> c in l;
  }

  predicate StartsWith(s: string, prefix: string) {
    |s| >= |prefix| && s[..|prefix|] == prefix
  }

  predicate EndsWith(s: string, suffix: string) {
    |s| >= |suffix| && s[|s| - |suffix|..] == suffix
  }

  /** `needle in hay` */
  predicate Contains(hay: string, needle: string) {
    exists i :: 0 <= i <= |hay| && StartsWith(hay[i..], needle)
  }

  function ReplaceChar(s: string, a: char, b: char): (r: string)
    ensures |r| == |s| && forall i :: 0 <= i < |s| ==> r[i] == if s[i] == a then b else s[i]
  {
    seq(|s|, i requires 0 <= i < |s| => if s[i] == a then b else s[i])
  }

  /** Lower case, of the ASCII letters. */
  function Lower(s: string): (r: string)
    ensures |r| == |s|
    ensures forall i :: 0 <= i < |s| ==> r[i] == LowerChar(s[i])
  {
    seq(|s|, i requires 0 <= i < |s| => LowerChar(s[i]))
  }

  function LowerChar(c: char): char {
    if 'A' <= c <= 'Z' then 'a' + (c - 'A') else c
  }

  // ---------------------------------------------------------------- split and join

  /** `s.split(c)` for a single character. */
  function Split(s: string, c: char): (parts: seq<string>)
    ensures |parts| > 0
  {
    if s == "" then [""]
    else if s[0] == c then [""] + Split(s[1..], c)
    else
      var rest := Split(s[1..], c);
      [[s[0]] + rest[0]] + rest[1..]
  }

  /** `sep.join(parts)` */
  function Join(parts: seq<string>, sep: string): string {
    if parts == [] then ""
    else if |parts| == 1 then parts[0]
    else parts[0] + sep + Join(parts[1..], sep)
  }

  lemma {:induction false} SplitSingle(a: string, c: char)
    requires c !in a
    ensures Split(a, c) == [a]
  {
    if a != "" {
      assert a[0] in a && a == [a[0]] + a[1..];
      SplitSingle(a[1..], c);
    }
  }

  lemma {:induction false} SplitFirst(a: string, c: char, b: string)
    requires c !in a
    ensures Split(a + [c] + b, c) == [a] + Split(b, c)
  {
    var s := a + [c] + b;
    if a == "" {
      assert s[1..] == b;
    } else {
      assert s[1..] == a[1..] + [c] + b;
      assert a[0] in a && a == [a[0]] + a[1..];
      SplitFirst(a[1..], c, b);
    }
  }

  lemma {:induction false} SplitJoined(parts: seq<string>, c: char)
    requires parts != [] && forall p :: p in parts ==> c !in p
    ensures Split(Join(parts, [c]), c) == parts
  {
    if |parts| == 1 {
      SplitSingle(parts[0], c);
    } else {
      SplitFirst(parts[0], c, Join(parts[1..], [c]));
      SplitJoined(parts[1..], c);
    }
  }

  // ---------------------------------------------------------------- searching

  /** The position of the first `c`, or the length. */
  function Find(s: string, c: char): (n: nat)
    ensures n <= |s| && c !in s[..n] && (n < |s| ==> s[n] == c)
  {
    if s == "" || s[0] == c then 0
    else
      assert s[..1 + Find(s[1..], c)] == [s[0]] + s[1..][..Find(s[1..], c)];
      1 + Find(s[1..], c)
  }

  lemma {:induction false} FindIn(a: string, c: char, rest: string)
    requires c !in a
    ensures Find(a + rest, c) == |a| + Find(rest, c)
  {
    if a == "" {
      assert a + rest == rest;
    } else {
      assert a[0] in a && (a + rest)[1..] == a[1..] + rest;
      FindIn(a[1..], c, rest);
    }
  }

  lemma {:induction false} FindNone(s: string, c: char)
    ensures Find(s, c) == |s| <==> c !in s
  {
    if s != "" {
      assert s == [s[0]] + s[1..];
      FindNone(s[1..], c);
    }
  }

  lemma {:induction false} FindFirst(a: string, c: char, b: string)
    requires c !in a
    ensures Find(a + [c] + b, c) == |a|
  {
    var s := a + [c] + b;
    if a != "" {
      assert a[0] in a && a == [a[0]] + a[1..];
      assert s[1..] == a[1..] + [c] + b;
      FindFirst(a[1..], c, b);
    }
  }

  // ---------------------------------------------------------------- words

  /** The first word of `s`, which must not start with white space. */
  function WordEnd(s: string): (n: nat)
    ensures n <= |s| && NoSpace(s[..n]) && (n < |s| ==> IsSpace(s[n]))
  {
    if s == "" || IsSpace(s[0]) then 0 else
      assert forall c :: c in s[..1 + WordEnd(s[1..])] ==> c == s[0] || c in s[1..][..WordEnd(s[1..])];
      1 + WordEnd(s[1..])
  }

  /** `s.split()` */
  function Words(s: string): (ws: seq<string>)
    ensures forall w :: w in ws ==> w != "" && NoSpace(w)
    decreases |s|
  {
    var t := LStrip(s);
    if t == "" then [] else [t[..WordEnd(t)]] + Words(t[WordEnd(t)..])
  }

  lemma {:induction false} LStripSpaces(sp: string, s: string)
    requires forall c :: c in sp ==> IsSpace(c)
    ensures LStrip(sp + s) == LStrip(s)
  {
    if sp == "" {
      assert sp + s == s;
    } else {
      assert (sp + s)[1..] == sp[1..] + s;
      LStripSpaces(sp[1..], s);
    }
  }

  lemma {:induction false} WordEndOf(w: string, rest: string)
    requires NoSpace(w) && (rest == "" || IsSpace(rest[0]))
    ensures WordEnd(w + rest) == |w|
  {
    if w == "" {
      assert w + rest == rest;
    } else {
      assert (w + rest)[1..] == w[1..] + rest;
      WordEndOf(w[1..], rest);
    }
  }

  lemma WordsFirst(w: string, rest: string)
    requires w != "" && NoSpace(w) && (rest == "" || IsSpace(rest[0]))
    ensures Words(w + rest) == [w] + Words(rest)
  {
    var s := w + rest;
    assert s[0] == w[0] && w[0] in w;
    WordEndOf(w, rest);
    assert s[..|w|] == w && s[|w|..] == rest;
  }

  /** White space in front makes no difference to the words. */
  lemma WordsOfStripped(a: string, b: string)
    requires LStrip(a) == LStrip(b)
    ensures Words(a) == Words(b)
  {
    hide LStrip, WordEnd;
  }

  lemma WordsSkip(s: string)
    ensures Words(" " + s) == Words(s)
  {
    hide LStrip, Words;
    LStripSpaces(" ", s);
    WordsOfStripped(" " + s, s);
  }

  lemma StripTrimmed(s: string)
    requires Trimmed(s)
    ensures Strip(s) == s && LStrip(s) == s && RStrip(s) == s
  {
  }

  lemma {:induction false} RStripSpaces(s: string, sp: string)
    requires forall c :: c in sp ==> IsSpace(c)
    ensures RStrip(s + sp) == RStrip(s)
  {
    if sp == "" {
      assert s + sp == s;
    } else {
      var init := sp[..|sp| - 1];
      assert sp[|sp| - 1] in sp && (s + sp)[..|s + sp| - 1] == s + init;
      forall c | c in init ensures IsSpace(c) {
        assert c in sp;
      }
      RStripSpaces(s, init);
    }
  }

  /** White space on both sides is stripped. */
  lemma StripPadded(l: string, s: string, r: string)
    requires Trimmed(s) && (forall c :: c in l ==> IsSpace(c)) && forall c :: c in r ==> IsSpace(c)
    ensures Strip(l + s + r) == s
  {
    hide LStrip, RStrip, IsSpace, Trimmed;
    assert l + s + r == l + (s + r);
    LStripSpaces(l, s + r);
    LStripFront(s, r);
    if s == "" {
      NothingToStrip();
    } else {
      RStripSpaces(s, r);
      StripTrimmed(s);
    }
  }

  lemma NothingToStrip()
    ensures RStrip("") == "" && LStrip("") == ""
  {
  }

  lemma LStripFront(s: string, r: string)
    requires Trimmed(s) && forall c :: c in r ==> IsSpace(c)
    ensures LStrip(s + r) == if s == "" then "" else s + r
  {
    if s == "" {
      assert s + r == r && r + "" == r;
      LStripSpaces(r, "");
    }
  }

  /** The word at the front does not change when white space follows it. */
  lemma {:induction false} WordEndBefore(a: string, rest: string)
    requires rest == "" || IsSpace(rest[0])
    ensures WordEnd(a + rest) == WordEnd(a)
  {
    if a == "" {
      assert a + rest == rest;
    } else if !IsSpace(a[0]) {
      assert (a + rest)[1..] == a[1..] + rest;
      WordEndBefore(a[1..], rest);
    }
  }

  // ---------------------------------------------------------------- lines

  /** What `str.splitlines()` takes for the end of a line. */
  predicate IsBreak(c: char) {
    '\n' <= c <= '\r' || '\U{1c}' <= c <= '\U{1e}' || c == '\U{85}' || c == '\U{2028}' || c == '\U{2029}'
  }

  predicate NoBreak(s: string) {
    forall c :: c in s ==> !IsBreak(c)
  }

  function LineEnd(s: string): (n: nat)
    ensures n <= |s| && NoBreak(s[..n]) && (n < |s| ==> IsBreak(s[n]))
  {
    if s == "" || IsBreak(s[0]) then 0
    else
      assert s[..1 + LineEnd(s[1..])] == [s[0]] + s[1..][..LineEnd(s[1..])];
      1 + LineEnd(s[1..])
  }

  /** Where the next line starts: a carriage return takes a newline with it. */
  function NextLine(s: string): (n: nat)
    ensures LineEnd(s) <= n <= |s| && (s != "" ==> n > 0)
  {
    var n := LineEnd(s);
    if n == |s| then n else if s[n] == '\r' && n + 1 < |s| && s[n + 1] == '\n' then n + 2 else n + 1
  }

  /** `s.splitlines()` */
  function SplitLines(s: string): (lines: seq<string>)
    ensures forall l :: l in lines ==> NoBreak(l)
    decreases |s|
  {
    if s == "" then [] else [s[..LineEnd(s)]] + SplitLines(s[NextLine(s)..])
  }

  /** `s.splitlines(True)` */
  function SplitLinesKeep(s: string): (lines: seq<string>)
    ensures forall l :: l in lines ==> l != ""
    decreases |s|
  {
    if s == "" then [] else [s[..NextLine(s)]] + SplitLinesKeep(s[NextLine(s)..])
  }

  function Concat(lines: seq<string>): string {
    if lines == [] then "" else lines[0] + Concat(lines[1..])
  }

  /** The lines, each with a newline. */
  function Unlines(lines: seq<string>): string {
    if lines == [] then "" else lines[0] + "\n" + Unlines(lines[1..])
  }

  lemma {:induction false} LineEndOf(l: string, rest: string)
    requires NoBreak(l) && (rest == "" || IsBreak(rest[0]))
    ensures LineEnd(l + rest) == |l|
  {
    if l == "" {
      assert l + rest == rest;
    } else {
      assert l[0] in l && (l + rest)[1..] == l[1..] + rest;
      assert forall c :: c in l[1..] ==> c in l;
      LineEndOf(l[1..], rest);
    }
  }

  lemma {:induction false} SplitUnlines(lines: seq<string>)
    requires forall l :: l in lines ==> NoBreak(l)
    ensures SplitLines(Unlines(lines)) == lines
  {
    if lines != [] {
      var l, rest := lines[0], Unlines(lines[1..]);
      var s := l + "\n" + rest;
      assert l in lines && s == l + ("\n" + rest);
      LineEndOf(l, "\n" + rest);
      assert s[|l|] == '\n' && NextLine(s) == |l| + 1;
      assert s[..|l|] == l && s[|l| + 1..] == rest;
      SplitUnlines(lines[1..]);
    }
  }

  lemma {:induction false} JoinIsUnlines(lines: seq<string>)
    ensures Join(lines + [""], "\n") == Unlines(lines)
  {
    var all := lines + [""];
    if lines == [] {
      assert all == [""];
    } else {
      assert all[0] == lines[0] && all[1..] == lines[1..] + [""];
      JoinIsUnlines(lines[1..]);
    }
  }
}
