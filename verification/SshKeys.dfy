/** Lines of an `authorized_keys` file: parsing, printing, and the quote scanner
    that tells options from the key. */
module SshKeys {
  import opened Options
  import opened Strings

  const VALID_KEY_TYPES: set<string> := {
    "dsa", "ecdsa", "ecdsa-sha2-nistp256", "ecdsa-sha2-nistp256-cert-v01@openssh.com",
    "ecdsa-sha2-nistp384", "ecdsa-sha2-nistp384-cert-v01@openssh.com", "ecdsa-sha2-nistp521",
    "ecdsa-sha2-nistp521-cert-v01@openssh.com", "ed25519", "rsa", "rsa-sha2-256", "rsa-sha2-512",
    "ssh-dss", "ssh-dss-cert-v01@openssh.com", "ssh-ed25519", "ssh-ed25519-cert-v01@openssh.com",
    "ssh-rsa", "ssh-rsa-cert-v01@openssh.com" }

  predicate IsKeyType(t: string) {
    t in VALID_KEY_TYPES
  }

  lemma KeyTypesHaveNoHash(t: string)
    requires IsKeyType(t)
    ensures t != "" && t[0] != '#'
  {
  }

  /** A field that is not there is empty; a line that is not a key has only its source. */
  datatype KeyLine = KeyLine(source: string, keytype: string, base64: string, comment: string, options: Option<string>)

  function NoKey(source: string): KeyLine {
    KeyLine(source, "", "", "", None)
  }

  predicate Valid(k: KeyLine) {
    k.base64 != "" && k.keytype != ""
  }

  function Print(k: KeyLine): string {
    var toks := (if k.options.Some? && k.options.value != "" then [k.options.value] else [])
                + (if k.keytype != "" then [k.keytype] else [])
                + (if k.base64 != "" then [k.base64] else [])
                + (if k.comment != "" then [k.comment] else []);
    if toks == [] then k.source else Join(toks, " ")
  }

  // ---------------------------------------------------------------- the quote scanner

  predicate IsBlank(c: char) {
    c == ' ' || c == '\t'
  }

  /** How many characters belong to the options. */
  function ScanEnd(s: string, quoted: bool): (n: nat)
    ensures n <= |s|
  {
    if s == "" || (!quoted && IsBlank(s[0])) then 0
    else if |s| == 1 then 1
    else if s[0] == '\\' && s[1] == '"' then 2 + ScanEnd(s[2..], quoted)
    else 1 + ScanEnd(s[1..], if s[0] == '"' then !quoted else quoted)
  }

  lemma ScanStep(s: string, i: nat, quoted: bool)
    requires i < |s| && (quoted || !IsBlank(s[i]))
    ensures ScanEnd(s[i..], quoted) ==
            if i + 1 == |s| then 1
            else if s[i] == '\\' && s[i + 1] == '"' then 2 + ScanEnd(s[i + 2..], quoted)
            else 1 + ScanEnd(s[i + 1..], if s[i] == '"' then !quoted else quoted)
  {
    assert s[i..][1..] == s[i + 1..];
    assert i + 1 < |s| ==> s[i..][2..] == s[i + 2..];
  }

  lemma ScanStops(s: string, i: nat, quoted: bool)
    requires i <= |s| && (i == |s| || (!quoted && IsBlank(s[i])))
    ensures ScanEnd(s[i..], quoted) == 0
  {
  }

  method ExtractOptions(ent: string) returns (options: string, remain: string)
    ensures options == ent[..ScanEnd(ent, false)] && remain == LStrip(ent[ScanEnd(ent, false)..])
  {
    hide ScanEnd, LStrip;
    var quoted := false;
    var i := 0;
    assert ent[0..] == ent;
    while i < |ent| && (quoted || !IsBlank(ent[i]))
      invariant 0 <= i <= |ent|
      invariant ScanEnd(ent, false) == i + ScanEnd(ent[i..], quoted)
    {
      ScanStep(ent, i, quoted);
      var curc := ent[i];
      if i + 1 >= |ent| {
        i := i + 1;
        break;
      }
      var nextc := ent[i + 1];
      if curc == '\\' && nextc == '"' {
        i := i + 1;
      } else if curc == '"' {
        quoted := !quoted;
      }
      i := i + 1;
    }
    ScanStops(ent, i, quoted);
    options := ent[..i];
    remain := LStrip(ent[i..]);
  }

  /** The reading state before the i-th character: inside quotes or not, and
      whether that character is a quote escaped by the one before it. */
  datatype Reading = Reading(quoted: bool, escaped: bool)

  function ReadingAt(s: string, i: nat): Reading
    requires i <= |s|
  {
    if i == 0 then Reading(false, false)
    else
      var before, c := ReadingAt(s, i - 1), s[i - 1];
      if before.escaped then Reading(before.quoted, false)
      else if c == '\\' && i < |s| && s[i] == '"' then Reading(before.quoted, true)
      else if c == '"' then Reading(!before.quoted, false)
      else before
  }

  predicate UnquotedBlank(s: string, i: nat)
    requires i < |s|
  {
    IsBlank(s[i]) && !ReadingAt(s, i).quoted
  }

  ghost predicate FirstUnquotedBlank(s: string, i: nat, n: nat)
    requires i <= n <= |s|
  {
    (n < |s| ==> UnquotedBlank(s, n)) && forall j :: i <= j < n ==> !UnquotedBlank(s, j)
  }

  /** Reading on from a character that is not an escaped quote. */
  lemma ReadOn(s: string, i: nat)
    requires i + 1 < |s| && !ReadingAt(s, i).escaped
    ensures var quoted := ReadingAt(s, i).quoted;
            if s[i] == '\\' && s[i + 1] == '"' then ReadingAt(s, i + 2) == Reading(quoted, false)
            else ReadingAt(s, i + 1) == Reading(if s[i] == '"' then !quoted else quoted, false)
  {
    if s[i] == '\\' && s[i + 1] == '"' {
      assert ReadingAt(s, i + 1) == Reading(ReadingAt(s, i).quoted, true);
    }
  }

  lemma {:induction false} ScanFrom(s: string, i: nat)
    requires i <= |s| && !ReadingAt(s, i).escaped
    ensures FirstUnquotedBlank(s, i, i + ScanEnd(s[i..], ReadingAt(s, i).quoted))
    decreases |s| - i
  {
    hide ReadingAt;
    if i + 1 < |s| && !UnquotedBlank(s, i) {
      ReadOn(s, i);
      if s[i] == '\\' && s[i + 1] == '"' {
        assert s[i..][2..] == s[i + 2..];
        ScanFrom(s, i + 2);
      } else {
        assert s[i..][1..] == s[i + 1..];
        ScanFrom(s, i + 1);
      }
    }
  }

  /** The scanner stops at exactly the first blank outside quotes. */
  lemma ScanStopsAtFirstUnquotedBlank(s: string)
    ensures FirstUnquotedBlank(s, 0, ScanEnd(s, false))
  {
    assert s[0..] == s;
    ScanFrom(s, 0);
  }

  // ---------------------------------------------------------------- parsing

  /** `key type, base64, comment`: the first two words, and the rest of the line. */
  datatype Key = Key(keytype: string, base64: string, comment: string)

  /** The first word, and what follows without the white space between. */
  function FirstWord(s: string): (string, string) {
    var t := LStrip(s);
    (t[..WordEnd(t)], LStrip(t[WordEnd(t)..]))
  }

  predicate IsFirstWord(s: string, r: (string, string)) {
    && NoSpace(r.0) && (r.0 == "" ==> r.1 == "") && (s == "" ==> r.0 == "")
    && (r.1 != "" ==> |s| > 0 && !IsSpace(r.1[0]) && r.1[|r.1| - 1] == s[|s| - 1])
    && WithinChars(r.0, s) && WithinChars(r.1, s)
  }

  predicate WithinChars(a: string, s: string) {
    forall c :: c in a ==> c in s
  }

  lemma StrippedWithin(s: string)
    ensures WithinChars(LStrip(s), s)
  {
  }

  lemma TailWithin(t: string, n: nat)
    requires n <= |t|
    ensures WithinChars(t[..n], t) && WithinChars(t[n..], t)
  {
  }

  lemma WithinIsTransitive(a: string, b: string, c: string)
    requires WithinChars(a, b) && WithinChars(b, c)
    ensures WithinChars(a, c)
  {
  }

  lemma NoWordNothing(t: string)
    requires (t == "" || !IsSpace(t[0])) && WordEnd(t) == 0
    ensures t == ""
  {
  }

  lemma FirstWordFacts(s: string)
    ensures IsFirstWord(s, FirstWord(s))
  {
    hide LStrip, WordEnd, IsSpace, NoSpace, WithinChars;
    var t := LStrip(s);
    var n := WordEnd(t);
    StrippedWithin(s);
    TailWithin(t, n);
    StrippedWithin(t[n..]);
    WithinIsTransitive(t[..n], t, s);
    WithinIsTransitive(t[n..], t, s);
    WithinIsTransitive(LStrip(t[n..]), t[n..], s);
    if n == 0 {
      NoWordNothing(t);
      assert LStrip(t[n..]) == "";
    }
  }

  /** `None` when there are fewer than two fields or the key type is not known. */
  function ParseKey(ent: string): Option<Key> {
    var (keytype, rest) := FirstWord(ent);
    var (base64, comment) := FirstWord(rest);
    if base64 == "" || !IsKeyType(keytype) then None else Some(Key(keytype, base64, comment))
  }

  function RStripBreaks(s: string): (r: string)
    ensures |r| <= |s| && r == s[..|r|]
  {
    if s != "" && (s[|s| - 1] == '\n' || s[|s| - 1] == '\r') then RStripBreaks(s[..|s| - 1]) else s
  }

  predicate IsComment(src: string) {
    var line := RStripBreaks(src);
    StartsWith(line, "#") || Strip(line) == ""
  }

  datatype Entry = Entry(options: Option<string>, key: Key)

  /** A key, or options and then a key. */
  function ParseEntry(ent: string): Option<Entry> {
    match ParseKey(ent)
    case Some(k) => Some(Entry(None, k))
    case None =>
      var n := ScanEnd(ent, false);
      match ParseKey(LStrip(ent[n..]))
      case None => None
      case Some(k) => Some(Entry(Some(ent[..n]), k))
  }

  function LineOf(src: string, e: Entry): KeyLine {
    KeyLine(src, e.key.keytype, e.key.base64, e.key.comment, e.options)
  }

  function Parse(src: string, options: Option<string>): KeyLine {
    if IsComment(src) then NoKey(src)
    else
      match ParseEntry(Strip(RStripBreaks(src)))
      case None => NoKey(src)
      case Some(e) => LineOf(src, if options.None? then e else e.(options := options))
  }

  method ParseLine(src: string, options: Option<string>) returns (k: KeyLine)
    ensures k == Parse(src, options)
  {
    hide ParseKey, ScanEnd, LStrip, RStripBreaks, Strip;
    var line := RStripBreaks(src);
    if StartsWith(line, "#") || Strip(line) == "" {
      return NoKey(src);
    }
    var ent := Strip(line);
    var key := ParseKey(ent);
    if key.Some? {
      return KeyLine(src, key.value.keytype, key.value.base64, key.value.comment, options);
    }
    var keyopts, remain := ExtractOptions(ent);
    var opts := if options.None? then Some(keyopts) else options;
    key := ParseKey(remain);
    if key.None? {
      return NoKey(src);
    }
    return KeyLine(src, key.value.keytype, key.value.base64, key.value.comment, opts);
  }

  // ---------------------------------------------------------------- printing and parsing back

  lemma {:induction false} ScanBefore(a: string, b: string, c: string, quoted: bool)
    requires b != "" && IsBlank(b[0]) && c != "" && IsBlank(c[0])
    requires ScanEnd(a + b, quoted) == |a|
    ensures ScanEnd(a + c, quoted) == |a|
    decreases |a|
  {
    if a == "" {
      assert a + b == b && a + c == c;
    } else if |a| >= 2 && a[0] == '\\' && a[1] == '"' {
      assert (a + b)[2..] == a[2..] + b && (a + c)[2..] == a[2..] + c;
      ScanBefore(a[2..], b, c, quoted);
    } else {
      assert (a + b)[1..] == a[1..] + b && (a + c)[1..] == a[1..] + c;
      ScanBefore(a[1..], b, c, if a[0] == '"' then !quoted else quoted);
    }
  }

  /** What a parsed key looks like. */
  predicate GoodKey(k: Key) {
    && IsKeyType(k.keytype) && k.keytype != "" && NoSpace(k.keytype)
    && k.base64 != "" && NoSpace(k.base64) && Trimmed(k.comment)
  }

  function PrintKey(k: Key): string {
    k.keytype + " " + k.base64 + if k.comment != "" then " " + k.comment else ""
  }

  lemma FirstWordOf(w: string, rest: string)
    requires w != "" && NoSpace(w) && (rest == "" || rest[0] == ' ')
    ensures FirstWord(w + rest) == (w, LStrip(rest))
  {
    assert w[0] in w && (w + rest)[0] == w[0];
    WordEndOf(w, rest);
    assert (w + rest)[..|w|] == w && (w + rest)[|w|..] == rest;
  }

  function KeyTail(k: Key): string {
    if k.comment != "" then " " + k.comment else ""
  }

  lemma ParsePrintedKey(k: Key)
    requires GoodKey(k)
    ensures ParseKey(PrintKey(k)) == Some(k)
  {
    hide IsKeyType, FirstWord, LStrip, NoSpace;
    var rest := k.base64 + KeyTail(k);
    assert PrintKey(k) == k.keytype + (" " + rest);
    FirstWordOf(k.keytype, " " + rest);
    assert k.base64[0] in k.base64 && rest[0] == k.base64[0];
    WordIsNoSpace(k.base64);
    StripOneSpace(rest);
    FirstWordOf(k.base64, KeyTail(k));
    if k.comment != "" {
      StripOneSpace(k.comment);
    } else {
      LStripOfNothing();
    }
  }

  lemma WordIsNoSpace(w: string)
    requires NoSpace(w) && w != ""
    ensures !IsSpace(w[0])
  {
    assert w[0] in w;
  }

  lemma StripOneSpace(s: string)
    requires s == "" || !IsSpace(s[0])
    ensures LStrip(" " + s) == s
  {
    hide LStrip;
    LStripSpaces(" ", s);
    NothingToStrip(s);
  }

  lemma NothingToStrip(s: string)
    requires s == "" || !IsSpace(s[0])
    ensures LStrip(s) == s
  {
  }

  lemma PrintedKeyTrimmed(k: Key)
    requires GoodKey(k)
    ensures Trimmed(PrintKey(k)) && PrintKey(k) != "" && PrintKey(k)[0] == k.keytype[0]
  {
    hide IsKeyType;
    var s := PrintKey(k);
    assert k.keytype[0] in k.keytype && k.base64[|k.base64| - 1] in k.base64;
    assert s[|s| - 1] == if k.comment != "" then k.comment[|k.comment| - 1] else k.base64[|k.base64| - 1];
  }

  /** Parsing a line with no white space at its end gives a good key. */
  lemma ParsedKeyIsGood(ent: string)
    requires ParseKey(ent).Some? && (ent == "" || !IsSpace(ent[|ent| - 1]))
    ensures GoodKey(ParseKey(ent).value)
  {
    hide IsKeyType, FirstWord, WithinChars;
    FirstWordFacts(ent);
    FirstWordFacts(FirstWord(ent).1);
  }

  /** Parsing a trimmed text that does not start with a hash. */
  lemma ParseTrimmed(s: string)
    requires Trimmed(s) && s != "" && s[0] != '#'
    ensures Parse(s, None) == match ParseEntry(s) case None => NoKey(s) case Some(e) => LineOf(s, e)
  {
    hide ParseEntry;
    StripTrimmed(s);
    assert RStripBreaks(s) == s;
  }

  /** Options that can be told from the key after them: they end at an unquoted
      blank, and their first word is no key type. */
  predicate GoodOptions(opts: string) {
    && opts != "" && !IsSpace(opts[0])
    && ScanEnd(opts + " ", false) == |opts|
    && !IsKeyType(opts[..WordEnd(opts)])
  }

  predicate GoodEntry(e: Entry) {
    GoodKey(e.key) && (e.options.Some? ==> GoodOptions(e.options.value))
  }

  function PrintEntry(e: Entry): string {
    (if e.options.Some? then e.options.value + " " else "") + PrintKey(e.key)
  }

  lemma NoKeyBeforeOptions(opts: string, tail: string)
    requires GoodOptions(opts) && tail != "" && tail[0] == ' '
    ensures ParseKey(opts + tail) == None
  {
    var s := opts + tail;
    hide IsKeyType, ScanEnd;
    WordEndBefore(opts, tail);
    assert LStrip(s) == s;
    assert s[..WordEnd(s)] == opts[..WordEnd(opts)];
    assert FirstWord(s).0 == opts[..WordEnd(opts)];
  }

  lemma ParsePrintedOptions(opts: string, k: Key)
    requires GoodOptions(opts) && GoodKey(k)
    ensures ParseEntry(opts + " " + PrintKey(k)) == Some(Entry(Some(opts), k))
  {
    hide ParseKey, ScanEnd, PrintKey, GoodKey, IsKeyType, WordEnd;
    var tail := " " + PrintKey(k);
    var s := opts + " " + PrintKey(k);
    assert s == opts + tail;
    NoKeyBeforeOptions(opts, tail);
    ScanBefore(opts, " ", tail, false);
    assert s[|opts|..] == tail && s[..|opts|] == opts;
    LStripSpaces(" ", PrintKey(k));
    PrintedKeyTrimmed(k);
    StripTrimmed(PrintKey(k));
    ParsePrintedKey(k);
  }

  /** Printing an entry and parsing the text gives the entry back. */
  lemma ParsePrintedEntry(e: Entry)
    requires GoodEntry(e)
    ensures ParseEntry(PrintEntry(e)) == Some(e)
    ensures Trimmed(PrintEntry(e)) && PrintEntry(e) != ""
    ensures PrintEntry(e)[0] == if e.options.Some? then e.options.value[0] else e.key.keytype[0]
  {
    hide ParseKey, ScanEnd, PrintKey, GoodKey;
    PrintedKeyTrimmed(e.key);
    if e.options.Some? {
      ParsePrintedOptions(e.options.value, e.key);
    } else {
      ParsePrintedKey(e.key);
      assert PrintEntry(e) == PrintKey(e.key);
    }
  }

  /** What parsing finds in a trimmed text is good for printing. */
  lemma ParsedEntryIsGood(ent: string)
    requires Trimmed(ent) && ParseEntry(ent).Some?
    ensures GoodEntry(ParseEntry(ent).value)
  {
    hide ParseKey, ScanEnd, LStrip, GoodKey, GoodOptions;
    if ParseKey(ent).Some? {
      ParsedKeyIsGood(ent);
    } else {
      var n := ScanEnd(ent, false);
      var rest := LStrip(ent[n..]);
      assert rest != "" ==> rest[|rest| - 1] == ent[|ent| - 1];
      ParsedKeyIsGood(rest);
      ParsedOptionsAreGood(ent);
    }
  }

  lemma BlankIsSpace(c: char)
    ensures IsBlank(c) ==> IsSpace(c)
    ensures IsBlank(' ')
  {
  }

  lemma ParsedOptionsAreGood(ent: string)
    requires Trimmed(ent) && ParseKey(ent).None? && ParseKey(LStrip(ent[ScanEnd(ent, false)..])).Some?
    ensures GoodOptions(ent[..ScanEnd(ent, false)])
  {
    hide ParseKey, ScanEnd, LStrip, IsSpace, IsBlank, GoodOptions, Trimmed;
    var n := ScanEnd(ent, false);
    var opts, tail := ent[..n], ent[n..];
    assert ent == opts + tail;
    OptionsEnd(ent);
    TrimmedStart(ent);
    BlankAfterOptions(ent);
    BlankIsSpace(ent[n]);
    OptionsAreGood(opts, tail);
  }

  lemma TrimmedStart(ent: string)
    requires Trimmed(ent) && ent != ""
    ensures !IsSpace(ent[0])
  {
  }

  lemma OptionsAreGood(opts: string, tail: string)
    requires opts != "" && !IsSpace(opts[0]) && tail != "" && IsBlank(tail[0]) && IsSpace(tail[0])
    requires ScanEnd(opts + tail, false) == |opts|
    requires ParseKey(opts + tail).None? && ParseKey(LStrip(tail)).Some?
    ensures GoodOptions(opts)
  {
    hide ParseKey, ScanEnd, LStrip, IsKeyType, WordEnd, IsSpace, IsBlank;
    BlankIsSpace(' ');
    ScanBefore(opts, tail, " ", false);
    FirstWordNoKey(opts, tail);
  }

  lemma ScanTakesSome(ent: string)
    requires ent != "" && !IsBlank(ent[0])
    ensures ScanEnd(ent, false) > 0
  {
  }

  lemma LStripOfNothing()
    ensures LStrip("") == ""
  {
  }

  lemma OptionsEnd(ent: string)
    requires Trimmed(ent) && ParseKey(LStrip(ent[ScanEnd(ent, false)..])).Some?
    ensures 0 < ScanEnd(ent, false) < |ent|
  {
    hide ParseKey, ScanEnd, LStrip;
    var n := ScanEnd(ent, false);
    EmptyIsNoKey();
    LStripOfNothing();
    assert ent[n..] != "";
    assert ent[0] != ' ' && ent[0] != '\t';
    ScanTakesSome(ent);
  }

  lemma BlankAfterOptions(ent: string)
    requires ScanEnd(ent, false) < |ent|
    ensures IsBlank(ent[ScanEnd(ent, false)])
  {
    ScanStopsAtFirstUnquotedBlank(ent);
  }

  lemma EmptyIsNoKey()
    ensures ParseKey("") == None
  {
    hide IsKeyType;
  }

  lemma NoKeyMeans(ent: string)
    requires ParseKey(ent).None? && FirstWord(FirstWord(ent).1).0 != ""
    ensures !IsKeyType(FirstWord(ent).0)
  {
    hide FirstWord, IsKeyType;
  }

  lemma FirstWordAt(ent: string, n: nat)
    requires ent != "" && !IsSpace(ent[0]) && n == WordEnd(ent)
    ensures FirstWord(ent) == (ent[..n], LStrip(ent[n..]))
  {
    assert LStrip(ent) == ent;
  }

  /** Two words follow the options, so a text that is no key starts with no key type. */
  lemma FirstWordNoKey(opts: string, tail: string)
    requires opts != "" && !IsSpace(opts[0]) && tail != "" && IsSpace(tail[0])
    requires ParseKey(opts + tail).None? && ParseKey(LStrip(tail)).Some?
    ensures !IsKeyType(opts[..WordEnd(opts)])
  {
    hide ParseKey, IsKeyType, FirstWord, WordEnd, LStrip;
    KeyIsNotEmpty(LStrip(tail));
    var ent, n := opts + tail, WordEnd(opts);
    WordEndBefore(opts, tail);
    FirstWordAt(ent, n);
    assert ent[n..] == opts[n..] + tail && ent[..n] == opts[..n];
    RestHasWord(opts[n..], tail);
    StartsWithWord(LStrip(opts[n..] + tail));
    NoKeyMeans(ent);
  }

  lemma KeyIsNotEmpty(ent: string)
    requires ParseKey(ent).Some?
    ensures ent != ""
  {
    EmptyIsNoKey();
  }

  lemma {:induction false} RestHasWord(a: string, tail: string)
    requires LStrip(tail) != ""
    ensures LStrip(a + tail) != ""
  {
    if a == "" {
      assert a + tail == tail;
    } else {
      assert (a + tail)[1..] == a[1..] + tail;
      RestHasWord(a[1..], tail);
    }
  }

  lemma StartsWithWord(t: string)
    requires t != "" && !IsSpace(t[0])
    ensures FirstWord(t).0 != ""
  {
    hide LStrip;
    NothingToStrip(t);
  }

  lemma JoinTwo(a: string, toks: seq<string>)
    requires toks != []
    ensures Join([a] + toks, " ") == a + " " + Join(toks, " ")
  {
    assert ([a] + toks)[1..] == toks;
  }

  function KeyToks(k: Key): seq<string> {
    [k.keytype] + ([k.base64] + if k.comment != "" then [k.comment] else [])
  }

  lemma JoinKeyToks(k: Key)
    ensures Join(KeyToks(k), " ") == PrintKey(k)
  {
    var tail := if k.comment != "" then [k.comment] else [];
    if k.comment != "" {
      JoinTwo(k.base64, [k.comment]);
    }
    JoinTwo(k.keytype, [k.base64] + tail);
  }

  lemma PrintIsPrintEntry(src: string, e: Entry)
    requires GoodEntry(e)
    ensures Print(LineOf(src, e)) == PrintEntry(e)
  {
    hide IsKeyType, ScanEnd, WordEnd, Join, PrintKey;
    var k := e.key;
    JoinKeyToks(k);
    if e.options.Some? {
      JoinTwo(e.options.value, KeyToks(k));
      assert [e.options.value] + [k.keytype] + [k.base64] + (if k.comment != "" then [k.comment] else [])
          == [e.options.value] + KeyToks(k);
    } else {
      assert [] + [k.keytype] + [k.base64] + (if k.comment != "" then [k.comment] else []) == KeyToks(k);
      assert "" + PrintKey(k) == PrintKey(k);
    }
  }

  lemma HashIsComment(s: string)
    requires Trimmed(s) && s != "" && s[0] == '#'
    ensures IsComment(s)
  {
    assert RStripBreaks(s) == s;
    assert s[..1] == "#";
  }

  lemma HashFirst(e: Entry)
    requires GoodEntry(e)
    ensures PrintEntry(e) != ""
    ensures PrintEntry(e)[0] == '#' <==> e.options.Some? && StartsWith(e.options.value, "#")
  {
    hide IsKeyType, ScanEnd, WordEnd, ParseEntry, PrintEntry, NoSpace, Trimmed;
    ParsePrintedEntry(e);
    KeyTypesHaveNoHash(e.key.keytype);
    if e.options.Some? {
      var o := e.options.value;
      assert o[..1] == [o[0]];
    }
  }

  /** Printing a parsed key and parsing it again gives the same key type, base64,
      comment and options, exactly unless the options start with a hash: such a
      line comes back as a comment. */
  lemma RoundTripIff(src: string)
    requires Valid(Parse(src, None))
    ensures var k := Parse(src, None);
            var hash := k.options.Some? && StartsWith(k.options.value, "#");
            Parse(Print(k), None) == if hash then NoKey(Print(k)) else k.(source := Print(k))
  {
    hide ParseEntry, PrintEntry, GoodEntry, Print, Strip, RStripBreaks, StartsWith, IsComment;
    ParsedEntryIsGood(Strip(RStripBreaks(src)));
    var e := ParseEntry(Strip(RStripBreaks(src))).value;
    PrintIsPrintEntry(src, e);
    ParsePrintedEntry(e);
    HashFirst(e);
    var s := PrintEntry(e);
    if s[0] != '#' {
      ParseTrimmed(s);
    } else {
      HashIsComment(s);
    }
  }

  /** The options that parsing finds in a line are good for printing. */
  lemma ParsedOptionsHold(src: string)
    requires Valid(Parse(src, None)) && Parse(src, None).options.Some?
    ensures GoodOptions(Parse(src, None).options.value)
  {
    hide ParseEntry, IsComment, GoodOptions, GoodKey, Strip, RStripBreaks;
    ParsedEntryIsGood(Strip(RStripBreaks(src)));
  }

  /** The same for a key parsed with the caller's options: they come back exactly when a
      line can hold them, and they do not start with a hash. */
  lemma RoundTripWithIff(src: string, o: string)
    requires Valid(Parse(src, Some(o)))
    ensures var k := Parse(src, Some(o));
            Parse(Print(k), None) == k.(source := Print(k)) <==> GoodOptions(o) && !StartsWith(o, "#")
  {
    hide ParseEntry, PrintEntry, GoodOptions, GoodKey, Print, Strip, RStripBreaks, StartsWith, IsComment;
    ParsedEntryIsGood(Strip(RStripBreaks(src)));
    var k := Parse(src, Some(o));
    var e := Entry(Some(o), ParseEntry(Strip(RStripBreaks(src))).value.key);
    if GoodOptions(o) {
      OptionsNotEmpty(o);
      PrintIsPrintEntry(src, e);
      ParsePrintedEntry(e);
      HashFirst(e);
      if PrintEntry(e)[0] != '#' {
        ParseTrimmed(PrintEntry(e));
      } else {
        HashIsComment(PrintEntry(e));
      }
    } else if Parse(Print(k), None) == k.(source := Print(k)) {
      ParsedOptionsHold(Print(k));
      assert false;
    }
  }

  lemma OptionsNotEmpty(o: string)
    requires GoodOptions(o)
    ensures o != ""
  {
  }

  /** What a line can hold as options: no white space in front, no blank outside quotes,
      every quote closed, and no key type as the first word. */
  lemma GoodOptionsIff(o: string)
    ensures GoodOptions(o) <==>
              && o != "" && !IsSpace(o[0]) && !IsKeyType(o[..WordEnd(o)])
              && (forall i :: 0 <= i < |o| ==> !UnquotedBlank(o + " ", i)) && !ReadingAt(o + " ", |o|).quoted
  {
    hide ScanEnd, ReadingAt, UnquotedBlank, IsKeyType, WordEnd, IsSpace;
    ScannedWholeIff(o);
  }

  lemma ScannedWholeIff(o: string)
    ensures ScanEnd(o + " ", false) == |o| <==>
              (forall i :: 0 <= i < |o| ==> !UnquotedBlank(o + " ", i)) && !ReadingAt(o + " ", |o|).quoted
  {
    hide ScanEnd, ReadingAt;
    var s := o + " ";
    ScanStopsAtFirstUnquotedBlank(s);
    var n := ScanEnd(s, false);
    assert IsBlank(s[|o|]);
    assert UnquotedBlank(s, |o|) <==> !ReadingAt(s, |o|).quoted;
    if n < |o| {
      assert UnquotedBlank(s, n);
    } else if n == |o| + 1 {
      assert !UnquotedBlank(s, |o|);
    }
  }

  /** A blank in front hides a hash from the first parse, so the options can start with
      one; the printed line is then a comment. */
  lemma HashOptionsAreLost(o: string, k: Key)
    requires GoodOptions(o) && o[0] == '#' && GoodKey(k)
    ensures var src := " " + o + " " + PrintKey(k); var line := LineOf(src, Entry(Some(o), k));
            && Parse(src, None) == line && Valid(line)
            && Parse(Print(line), None) == NoKey(Print(line))
  {
    hide ParseEntry, GoodOptions, PrintKey, Print, Strip, RStripBreaks, IsComment;
    var src, e := " " + o + " " + PrintKey(k), Entry(Some(o), k);
    var s := PrintEntry(e);
    assert src == " " + s;
    ParsePrintedEntry(e);
    OptionsNotEmpty(o);
    PrintIsPrintEntry(src, e);
    StripAfterBlank(s);
    HashIsComment(s);
  }

  lemma StripAfterBlank(s: string)
    requires Trimmed(s) && s != ""
    ensures RStripBreaks(" " + s) == " " + s && Strip(" " + s) == s && !IsComment(" " + s)
  {
    hide LStrip, RStrip;
    var t := " " + s;
    assert t[|t| - 1] == s[|s| - 1];
    StripOneSpace(s);
    StripTrimmed(s);
    assert t[0] == ' ';
  }

  /** `" #x rsa A"` is such a line. */
  lemma HashOptionsExist()
    ensures var k := Parse(" #x rsa A", None);
            Valid(k) && k.options == Some("#x") && Parse(Print(k), None) == NoKey(Print(k))
  {
    hide Parse, Print;
    var o, k := "#x", Key("rsa", "A", "");
    HashX();
    assert PrintKey(k) == "rsa A";
    assert " " + o + " " + PrintKey(k) == " #x rsa A";
    HashOptionsAreLost(o, k);
  }

  lemma HashX()
    ensures GoodOptions("#x") && GoodKey(Key("rsa", "A", ""))
  {
    hide ScanEnd, IsKeyType, WordEnd;
    ScanX();
    assert "#x"[..2] == "#x" && IsSpace("#x"[0]) == false;
    if IsKeyType("#x") {
      KeyTypesHaveNoHash("#x");
    }
    RsaIsKeyType();
  }

  lemma RsaIsKeyType()
    ensures IsKeyType("rsa")
  {
  }

  lemma ScanX()
    ensures ScanEnd("#x" + " ", false) == 2 && WordEnd("#x") == 2
  {
    hide IsKeyType;
    var s := "#x ";
    assert "#x" + " " == s && s[1..] == "x " && s[1..][1..] == " ";
    assert ScanEnd(" ", false) == 0;
    assert ScanEnd("x ", false) == 1;
    assert WordEnd("") == 0 && "#x"[1..] == "x" && "x"[1..] == "";
    assert WordEnd("x") == 1;
  }

  // ---------------------------------------------------------------- line breaks

  lemma ParsedChars(ent: string)
    requires ParseEntry(ent).Some?
    ensures var e := ParseEntry(ent).value;
            && WithinChars(e.key.keytype, ent) && WithinChars(e.key.base64, ent) && WithinChars(e.key.comment, ent)
            && (e.options.Some? ==> WithinChars(e.options.value, ent))
  {
    hide ParseKey, ScanEnd, LStrip;
    if ParseKey(ent).Some? {
      ParsedKeyChars(ent);
    } else {
      var n := ScanEnd(ent, false);
      TailWithin(ent, n);
      StrippedWithin(ent[n..]);
      ParsedKeyChars(LStrip(ent[n..]));
    }
  }

  lemma ParsedKeyChars(ent: string)
    requires ParseKey(ent).Some?
    ensures var k := ParseKey(ent).value;
            WithinChars(k.keytype, ent) && WithinChars(k.base64, ent) && WithinChars(k.comment, ent)
  {
    hide IsKeyType, FirstWord, NoSpace, IsSpace;
    FirstWordFacts(ent);
    FirstWordFacts(FirstWord(ent).1);
  }

  lemma UnbrokenWithin(a: string, s: string)
    requires NoBreak(s) && WithinChars(a, s)
    ensures NoBreak(a)
  {
  }

  lemma UnbrokenJoin(a: string, b: string)
    requires NoBreak(b)
    ensures NoBreak(a + " " + b) <==> NoBreak(a)
  {
    if NoBreak(a + " " + b) {
      forall c | c in a ensures !IsBreak(c) {
        assert c in a + " " + b;
      }
    }
  }

  lemma EntryWithin(src: string)
    ensures WithinChars(Strip(RStripBreaks(src)), src)
  {
  }

  /** A line printed back has no line break that was not in it before. */
  lemma PrintKeepsLine(src: string)
    requires NoBreak(src)
    ensures NoBreak(Print(Parse(src, None)))
  {
    hide ParseEntry, GoodEntry, IsComment, Print, NoBreak, WithinChars, Strip, RStripBreaks;
    var ent := Strip(RStripBreaks(src));
    if !IsComment(src) && ParseEntry(ent).Some? {
      var e := ParseEntry(ent).value;
      ParsedEntryIsGood(ent);
      PrintIsPrintEntry(src, e);
      ParsedChars(ent);
      EntryWithin(src);
      UnbrokenWithin(ent, src);
      UnbrokenEntry(ent, e);
    } else {
      PrintsSource(src);
    }
  }

  /** With the caller's options in front, the breaks are those of the options. */
  lemma PrintWithKeepsLine(src: string, o: string)
    requires NoBreak(src) && Valid(Parse(src, Some(o))) && GoodOptions(o)
    ensures NoBreak(Print(Parse(src, Some(o)))) <==> NoBreak(o)
  {
    hide ParseEntry, GoodOptions, GoodKey, IsComment, Print, PrintKey, NoBreak, WithinChars, Strip, RStripBreaks;
    var ent := Strip(RStripBreaks(src));
    var e := Entry(Some(o), ParseEntry(ent).value.key);
    ParsedEntryIsGood(ent);
    ParsedChars(ent);
    EntryWithin(src);
    UnbrokenWithin(ent, src);
    UnbrokenKey(ent, e.key);
    PrintIsPrintEntry(src, e);
    UnbrokenJoin(o, PrintKey(e.key));
  }

  lemma PrintsSource(src: string)
    ensures Print(NoKey(src)) == src
  {
  }

  lemma UnbrokenKey(ent: string, k: Key)
    requires NoBreak(ent)
    requires WithinChars(k.keytype, ent) && WithinChars(k.base64, ent) && WithinChars(k.comment, ent)
    ensures NoBreak(PrintKey(k))
  {
    hide NoBreak, WithinChars;
    UnbrokenWithin(k.keytype, ent);
    UnbrokenWithin(k.base64, ent);
    UnbrokenWithin(k.comment, ent);
    UnbrokenJoin(k.keytype, k.base64);
    if k.comment != "" {
      UnbrokenJoin(k.keytype + " " + k.base64, k.comment);
      assert k.keytype + " " + k.base64 + " " + k.comment == PrintKey(k);
    } else {
      assert k.keytype + " " + k.base64 == PrintKey(k);
    }
  }

  lemma UnbrokenEntry(ent: string, e: Entry)
    requires NoBreak(ent)
    requires WithinChars(e.key.keytype, ent) && WithinChars(e.key.base64, ent) && WithinChars(e.key.comment, ent)
    requires e.options.Some? ==> WithinChars(e.options.value, ent)
    ensures NoBreak(PrintEntry(e))
  {
    hide NoBreak, WithinChars, PrintKey;
    UnbrokenKey(ent, e.key);
    if e.options.Some? {
      UnbrokenWithin(e.options.value, ent);
      UnbrokenJoin(e.options.value, PrintKey(e.key));
    } else {
      assert "" + PrintKey(e.key) == PrintKey(e.key);
    }
  }

  // ---------------------------------------------------------------- the known key types

  const CERT := "-cert-v01@openssh.com"

  /** The types that come as a key and as a certificate, and those that come as keys only. */
  const FAMILIES: set<string> :=
    { "ssh-rsa", "ssh-dss", "ssh-ed25519", "ecdsa-sha2-nistp256", "ecdsa-sha2-nistp384", "ecdsa-sha2-nistp521" }
  const KEY_ONLY: set<string> := { "rsa", "dsa", "ecdsa", "ed25519", "rsa-sha2-256", "rsa-sha2-512" }

  const CERTS: set<string> :=
    { "ssh-rsa-cert-v01@openssh.com", "ssh-dss-cert-v01@openssh.com", "ssh-ed25519-cert-v01@openssh.com",
      "ecdsa-sha2-nistp256-cert-v01@openssh.com", "ecdsa-sha2-nistp384-cert-v01@openssh.com",
      "ecdsa-sha2-nistp521-cert-v01@openssh.com" }

  function Cert(family: string): string {
    family + CERT
  }

  lemma RsaCert()
    ensures Cert("ssh-rsa") == "ssh-rsa-cert-v01@openssh.com"
  {
  }

  lemma DssCert()
    ensures Cert("ssh-dss") == "ssh-dss-cert-v01@openssh.com"
  {
  }

  lemma Ed25519Cert()
    ensures Cert("ssh-ed25519") == "ssh-ed25519-cert-v01@openssh.com"
  {
  }

  lemma Nistp256Cert()
    ensures Cert("ecdsa-sha2-nistp256") == "ecdsa-sha2-nistp256-cert-v01@openssh.com"
  {
  }

  lemma Nistp384Cert()
    ensures Cert("ecdsa-sha2-nistp384") == "ecdsa-sha2-nistp384-cert-v01@openssh.com"
  {
  }

  lemma Nistp521Cert()
    ensures Cert("ecdsa-sha2-nistp521") == "ecdsa-sha2-nistp521-cert-v01@openssh.com"
  {
  }

  lemma InThree(t: string)
    ensures IsKeyType(t) <==> t in KEY_ONLY || t in FAMILIES || t in CERTS
  {
  }

  lemma CertsAre(t: string)
    ensures t in CERTS <==> exists f :: f in FAMILIES && t == Cert(f)
  {
    hide Cert;
    RsaCert();
    DssCert();
    Ed25519Cert();
    Nistp256Cert();
    Nistp384Cert();
    Nistp521Cert();
    forall f | f in FAMILIES ensures Cert(f) in CERTS {}
    if t in CERTS {
      assert "ssh-rsa" in FAMILIES && "ssh-dss" in FAMILIES && "ssh-ed25519" in FAMILIES;
      assert "ecdsa-sha2-nistp256" in FAMILIES && "ecdsa-sha2-nistp384" in FAMILIES && "ecdsa-sha2-nistp521" in FAMILIES;
    }
  }

  /** The key types that are known: eighteen of them, twelve keys and six certificates. */
  lemma KeyTypesAre(t: string)
    ensures IsKeyType(t) <==> t in KEY_ONLY || t in FAMILIES || exists f :: f in FAMILIES && t == f + "-cert-v01@openssh.com"
  {
    hide IsKeyType;
    InThree(t);
    CertsAre(t);
    if t in CERTS {
      var f :| f in FAMILIES && t == Cert(f);
    }
    if exists f :: f in FAMILIES && t == f + "-cert-v01@openssh.com" {
      var f :| f in FAMILIES && t == f + "-cert-v01@openssh.com";
      assert t == Cert(f);
    }
  }
}
