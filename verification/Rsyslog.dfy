/** Remote lines of the rsyslog configuration: `match @host:port # name`. */
module Rsyslog {
  import opened Options
  import opened Strings
  import Decimal

  /** A name that is not there is empty. */
  datatype Remote = Remote(name: string, match_: string, proto: string, addr: string, port: Option<nat>)

  /** The outcome of parsing: a value error is reported to the caller, an attribute
      error comes of an address that is not there at all. */
  datatype Parsed = Line(r: Remote) | ValueError | AttributeError

  // ---------------------------------------------------------------- printing

  function Print(r: Remote): string {
    r.match_ + " " + HostPort(r) + if r.name != "" then " # " + r.name else ""
  }

  function ProtoMark(proto: string): string {
    if proto == "udp" then "@" else if proto == "tcp" then "@@" else ""
  }

  function Address(addr: string): string {
    if ':' in addr then "[" + addr + "]" else addr
  }

  function PortSuffix(port: Option<nat>): string {
    if port.Some? && port.value != 0 then ":" + Decimal.Print(port.value) else ""
  }

  function HostPort(r: Remote): string {
    ProtoMark(r.proto) + Address(r.addr) + PortSuffix(r.port)
  }

  lemma Grouped(a: string, b: string, c: string, d: string)
    ensures a + b + c + d == a + (b + c + d)
  {
  }

  method ToString(r: Remote) returns (buf: string)
    ensures buf == Print(r)
  {
    hide Decimal.Print;
    buf := r.match_ + " ";
    if r.proto == "udp" {
      buf := buf + "@";
    } else if r.proto == "tcp" {
      buf := buf + "@@";
    }
    assert buf == r.match_ + " " + ProtoMark(r.proto);
    if ':' in r.addr {
      buf := buf + ("[" + r.addr + "]");
    } else {
      buf := buf + r.addr;
    }
    assert buf == r.match_ + " " + ProtoMark(r.proto) + Address(r.addr);
    if r.port.Some? && r.port.value != 0 {
      buf := buf + (":" + Decimal.Print(r.port.value));
    }
    assert buf == r.match_ + " " + ProtoMark(r.proto) + Address(r.addr) + PortSuffix(r.port);
    Grouped(r.match_ + " ", ProtoMark(r.proto), Address(r.addr), PortSuffix(r.port));
    if r.name != "" {
      buf := buf + (" # " + r.name);
    }
  }

  // ---------------------------------------------------------------- parsing

  function SkipChar(s: string, c: char): string {
    if s != "" && s[0] == c then SkipChar(s[1..], c) else s
  }

  function DropSpaces(s: string): string {
    if s != "" && s[|s| - 1] == ' ' then DropSpaces(s[..|s| - 1]) else s
  }

  /** Splits at `[ ]*[#]+[ ]*`; the line is all data unless that matches once. */
  function SplitComment(line: string): (string, string) {
    var h := Find(line, '#');
    var comment := SkipChar(SkipChar(line[h..], '#'), ' ');
    if h == |line| || '#' in comment then (line, "") else (DropSpaces(line[..h]), Strip(comment))
  }

  /** What `([:]([0-9]+))?$` makes of the rest: no port, a port, or no match. */
  datatype Tail = NoPort | Port(digits: string) | NoMatch

  function ChopNewline(s: string): string {
    if EndsWith(s, "\n") then s[..|s| - 1] else s
  }

  function MatchTail(rest: string): (t: Tail)
    ensures t.Port? ==> Decimal.AllDigits(t.digits)
  {
    var s := ChopNewline(rest);
    if s == "" then NoPort
    else if |s| > 1 && s[0] == ':' && Decimal.AllDigits(s[1..]) then Port(s[1..])
    else NoMatch
  }

  datatype HostMatch = HostMatch(marks: nat, addr: string, bracketed: bool, port: Tail)

  /** The number of marks in front, two at most. */
  function CountMarks(s: string): (n: nat)
    ensures n <= |s|
  {
    if |s| >= 2 && s[0] == s[1] == '@' then 2 else if |s| >= 1 && s[0] == '@' then 1 else 0
  }

  /** An address in brackets, or one that runs to the first colon; then a port. */
  function MatchAddress(marks: nat, t: string): (r: Option<HostMatch>)
    ensures r.Some? && r.value.port.Port? ==> Decimal.AllDigits(r.value.port.digits)
  {
    var close, colon := Find(t, ']'), Find(t, ':');
    if t != "" && t[0] == '[' && close < |t| && !MatchTail(t[close + 1..]).NoMatch? then
      Some(HostMatch(marks, t[1..close], true, MatchTail(t[close + 1..])))
    else if !MatchTail(t[colon..]).NoMatch? then
      Some(HostMatch(marks, t[..colon], false, MatchTail(t[colon..])))
    else
      None
  }

  function MatchHost(s: string): (r: Option<HostMatch>)
    ensures r.Some? && r.value.port.Port? ==> Decimal.AllDigits(r.value.port.digits)
  {
    MatchAddress(CountMarks(s), s[CountMarks(s)..])
  }

  function MakeRemote(name: string, match_: string, h: HostMatch): Parsed
    requires h.port.Port? ==> Decimal.AllDigits(h.port.digits)
  {
    if !h.bracketed && h.addr == "" then AttributeError
    else if h.addr == "" || (h.addr[0] == '[' && h.addr[|h.addr| - 1] != ']') then ValueError
    else Line(Remote(name, if match_ == "" then "*.*" else match_, if h.marks == 2 then "tcp" else "udp", h.addr,
                     if h.port.Port? then Some(Decimal.Read(h.port.digits)) else None))
  }

  function Parse(line: string, name: string): Parsed {
    var (data, comment) := SplitComment(line);
    var toks := Words(data);
    if |toks| != 1 && |toks| != 2 then ValueError
    else
      var match_, host := if |toks| == 2 then toks[0] else "", if |toks| == 2 then toks[1] else data;
      match MatchHost(host)
      case None => ValueError
      case Some(h) => MakeRemote(if name == "" then comment else name, match_, h)
  }

  // ---------------------------------------------------------------- printing and parsing back

  /** A word the line has no other use for. */
  predicate IsWord(s: string) {
    s != "" && NoSpace(s) && '#' !in s
  }

  /** Whether an address can be told from what surrounds it. */
  predicate GoodAddress(proto: string, addr: string)
    requires addr != ""
  {
    if ':' in addr then ']' !in addr && addr[0] != '['
    else (addr[0] == '@' ==> proto == "tcp") && (addr[0] == '[' ==> addr[|addr| - 1] == ']' && ']' in addr[..|addr| - 1])
  }

  predicate GoodName(name: string) {
    Trimmed(name) && '#' !in name
  }

  predicate Printable(r: Remote) {
    IsWord(r.match_) && IsWord(r.addr) && (r.proto == "udp" || r.proto == "tcp")
  }

  function TailOf(port: Option<nat>): (t: Tail)
    ensures !t.NoMatch?
  {
    if port.Some? && port.value != 0 then Port(Decimal.Print(port.value)) else NoPort
  }

  lemma MatchPrintedTail(port: Option<nat>)
    ensures MatchTail(PortSuffix(port)) == TailOf(port)
  {
    var s := PortSuffix(port);
    if s != "" {
      var digits := Decimal.Print(port.value);
      assert s[1..] == digits && s[|s| - 1] == digits[|digits| - 1];
      assert Decimal.IsDigit(digits[|digits| - 1]);
      assert s[|s| - 1..] == [s[|s| - 1]];
      assert ChopNewline(s) == s;
    }
  }

  /** Anything but a colon at its front, or a bracket in it, makes a tail no tail. */
  lemma NoTail(s: string)
    requires s != "" && s != "\n" && (s[0] != ':' || exists i :: 0 < i < |s| && s[i] == ']')
    ensures MatchTail(s) == NoMatch
  {
    var t := ChopNewline(s);
    if EndsWith(s, "\n") {
      assert s[|s| - 1] == '\n' && t == s[..|s| - 1];
      assert |s| == 1 ==> s == "\n";
    }
    assert t[0] == s[0];
    if s[0] == ':' {
      var i :| 0 < i < |s| && s[i] == ']';
      assert t[i] == ']' && t[1..][i - 1] == ']';
      assert !Decimal.IsDigit(t[1..][i - 1]);
    }
  }

  lemma FindSkips(t: string, c: char)
    requires t != "" && t[0] != c
    ensures Find(t, c) == 1 + Find(t[1..], c)
  {
  }

  /** Where the first closing bracket and the first colon fall. */
  lemma BracketedMarks(addr: string, suffix: string)
    requires ':' in addr
    ensures var t := "[" + addr + "]" + suffix;
            && t[0] == '['
            && Find(t, ']') == 1 + Find(addr + "]", ']') && Find(t, ':') == 1 + Find(addr, ':')
            && Find(addr + "]", ']') <= |addr| && Find(addr, ':') < |addr|
  {
    hide Find;
    BracketedText(addr, suffix);
    var t := "[" + addr + "]" + suffix;
    FindSkips(t, ']');
    FindSkips(t, ':');
    FindWithin(addr, ']', suffix);
    FindPrefix(addr, ':', "]" + suffix);
  }

  lemma BracketedText(addr: string, suffix: string)
    ensures var t := "[" + addr + "]" + suffix;
            t[0] == '[' && t[1..] == addr + [']'] + suffix && t[1..] == addr + ("]" + suffix)
    ensures "]" == [']']
  {
  }

  lemma BracketedGood(addr: string, suffix: string)
    requires ':' in addr && ']' !in addr
    ensures var t := "[" + addr + "]" + suffix;
            Find(t, ']') == 1 + |addr| && t[1..1 + |addr|] == addr && t[2 + |addr|..] == suffix
  {
    BracketedMarks(addr, suffix);
    FindWithin(addr, ']', suffix);
  }

  lemma BracketedBad(addr: string, suffix: string)
    requires ':' in addr && ']' in addr
    ensures var t := "[" + addr + "]" + suffix;
            && Find(t, ']') < |t| && MatchTail(t[Find(t, ']') + 1..]) == NoMatch
            && MatchTail(t[Find(t, ':')..]) == NoMatch
  {
    var t := "[" + addr + "]" + suffix;
    BracketedMarks(addr, suffix);
    FindPrefix(addr, ']', "]");
    var close, colon := Find(t, ']'), Find(t, ':');
    assert t[|addr| + 1] == ']' && close <= |addr| && colon <= |addr|;
    var rest := t[close + 1..];
    assert rest[|addr| - close] == ']';
    NoTail(rest);
    var rest' := t[colon..];
    assert rest'[|addr| + 1 - colon] == ']';
    NoTail(rest');
  }

  /** Finding a character that the first part holds. */
  lemma {:induction false} FindPrefix(a: string, c: char, rest: string)
    requires c in a
    ensures Find(a + rest, c) == Find(a, c) < |a|
  {
    assert a == [a[0]] + a[1..];
    assert (a + rest)[1..] == a[1..] + rest;
    if a[0] != c {
      FindPrefix(a[1..], c, rest);
    }
  }

  lemma FindWithin(a: string, c: char, rest: string)
    ensures Find(a + [c] + rest, c) == Find(a + [c], c) <= |a|
    ensures c !in a ==> Find(a + [c], c) == |a|
  {
    assert c in a + [c];
    FindPrefix(a + [c], c, rest);
    if c !in a {
      FindIn(a, c, [c]);
    }
  }

  function Marks(proto: string): nat {
    if proto == "udp" then 1 else if proto == "tcp" then 2 else 0
  }

  lemma CountPrintedMarks(proto: string, t: string)
    requires (proto == "udp" || proto == "tcp") && (t == "" || t[0] != '@' || proto == "tcp")
    ensures CountMarks(ProtoMark(proto) + t) == Marks(proto) && (ProtoMark(proto) + t)[Marks(proto)..] == t
  {
  }

  /** What the host pattern makes of a printed host: the parts it was printed from,
      when the address is good; otherwise something else or nothing. */
  lemma MatchPrintedBracketed(r: Remote)
    requires Printable(r) && ':' in r.addr
    ensures MatchHost(HostPort(r))
            == if ']' in r.addr then None else Some(HostMatch(Marks(r.proto), r.addr, true, TailOf(r.port)))
  {
    hide PortSuffix, CountMarks, ProtoMark, NoSpace, TailOf, MatchAddress;
    var t := "[" + r.addr + "]" + PortSuffix(r.port);
    Grouped(ProtoMark(r.proto), "[" + r.addr + "]", PortSuffix(r.port), "");
    assert HostPort(r) == ProtoMark(r.proto) + t;
    CountPrintedMarks(r.proto, t);
    BracketedAddress(Marks(r.proto), r.addr, r.port);
  }

  lemma BracketedAddress(marks: nat, addr: string, port: Option<nat>)
    requires ':' in addr
    ensures MatchAddress(marks, "[" + addr + "]" + PortSuffix(port))
            == if ']' in addr then None else Some(HostMatch(marks, addr, true, TailOf(port)))
  {
    hide MatchTail, PortSuffix, Find, TailOf;
    MatchPrintedTail(port);
    BracketedMarks(addr, PortSuffix(port));
    if ']' in addr {
      BracketedBad(addr, PortSuffix(port));
    } else {
      BracketedGood(addr, PortSuffix(port));
    }
  }

  lemma {:induction false} PlainColon(addr: string, port: Option<nat>)
    requires ':' !in addr
    ensures var t := addr + PortSuffix(port);
            Find(t, ':') == |addr| && t[|addr|..] == PortSuffix(port) && t[..|addr|] == addr
  {
    FindIn(addr, ':', PortSuffix(port));
  }

  /** A closing bracket that is not the last character leaves no tail. */
  lemma PlainBracket(addr: string, port: Option<nat>)
    requires ':' !in addr && NoSpace(addr) && addr != "" && addr[0] == '['
    ensures var t := addr + PortSuffix(port);
            && (Find(t, ']') < |t| <==> ']' in addr)
            && (']' in addr && Find(addr, ']') < |addr| - 1 ==> MatchTail(t[Find(t, ']') + 1..]) == NoMatch)
            && (']' in addr && Find(addr, ']') == |addr| - 1 ==>
                  t[Find(t, ']') + 1..] == PortSuffix(port) && t[1..Find(t, ']')] == addr[1..|addr| - 1])
  {
    var suffix := PortSuffix(port);
    var t := addr + suffix;
    SuffixHasNoBracket(port);
    FindNone(t, ']');
    FindNone(addr, ']');
    if ']' in addr {
      FindPrefix(addr, ']', suffix);
      var close := Find(addr, ']');
      if close < |addr| - 1 {
        var rest := t[close + 1..];
        assert rest[0] == addr[close + 1] && addr[close + 1] in addr;
        NoTail(rest);
      }
    }
  }

  lemma SuffixHasNoBracket(port: Option<nat>)
    ensures ']' !in PortSuffix(port)
  {
    if port.Some? && port.value != 0 {
      var d := Decimal.Print(port.value);
      forall i | 0 <= i < |d| ensures d[i] != ']' {
        assert Decimal.IsDigit(d[i]);
      }
    }
  }

  lemma MatchPrintedPlain(r: Remote)
    requires Printable(r) && ':' !in r.addr && (r.addr[0] == '@' ==> r.proto == "tcp")
    ensures MatchHost(HostPort(r))
            == Some(if r.addr[0] == '[' && ']' in r.addr && Find(r.addr, ']') == |r.addr| - 1
                    then HostMatch(Marks(r.proto), r.addr[1..|r.addr| - 1], true, TailOf(r.port))
                    else HostMatch(Marks(r.proto), r.addr, false, TailOf(r.port)))
  {
    hide PortSuffix, Find, CountMarks, ProtoMark, NoSpace, TailOf, MatchAddress;
    var t := r.addr + PortSuffix(r.port);
    Grouped(ProtoMark(r.proto), r.addr, PortSuffix(r.port), "");
    assert HostPort(r) == ProtoMark(r.proto) + t;
    assert t[0] == r.addr[0];
    CountPrintedMarks(r.proto, t);
    PlainAddress(Marks(r.proto), r.addr, r.port);
  }

  lemma PlainAddress(marks: nat, addr: string, port: Option<nat>)
    requires ':' !in addr && addr != "" && NoSpace(addr)
    ensures MatchAddress(marks, addr + PortSuffix(port))
            == Some(if addr[0] == '[' && ']' in addr && Find(addr, ']') == |addr| - 1
                    then HostMatch(marks, addr[1..|addr| - 1], true, TailOf(port))
                    else HostMatch(marks, addr, false, TailOf(port)))
  {
    hide MatchTail, PortSuffix, Find, NoSpace, TailOf;
    MatchPrintedTail(port);
    PlainColon(addr, port);
    if addr[0] == '[' {
      PlainBracket(addr, port);
      FindPrefixOrAll(addr, port);
    } else {
      assert (addr + PortSuffix(port))[0] == addr[0];
    }
  }

  lemma FindPrefixOrAll(addr: string, port: Option<nat>)
    ensures ']' in addr ==> Find(addr + PortSuffix(port), ']') == Find(addr, ']')
  {
    if ']' in addr {
      FindPrefix(addr, ']', PortSuffix(port));
    }
  }

  /** A mark in front of a udp address is taken for the protocol. */
  lemma MarkedAddressIsTcp(r: Remote)
    requires Printable(r) && r.proto == "udp" && ':' !in r.addr && r.addr[0] == '@'
    ensures CountMarks(HostPort(r)) == 2
  {
    assert HostPort(r)[1] == r.addr[0];
  }

  // ---------------------------------------------------------------- the whole line

  lemma DropOneSpace(s: string)
    requires s == "" || s[|s| - 1] != ' '
    ensures DropSpaces(s + " ") == s
  {
    assert (s + " ")[..|s|] == s;
  }

  lemma NoComment(line: string)
    requires '#' !in line
    ensures SplitComment(line) == (line, "")
  {
    FindNone(line, '#');
  }

  lemma {:induction false} SkipKeepsHash(s: string)
    ensures '#' in SkipChar(s, ' ') <==> '#' in s
    ensures Trimmed(s) ==> SkipChar(s, ' ') == s
  {
    if s != "" && s[0] == ' ' {
      assert s == [s[0]] + s[1..];
      SkipKeepsHash(s[1..]);
    }
  }

  lemma SkipMarks(name: string)
    ensures SkipChar(SkipChar("#" + (" " + name), '#'), ' ') == SkipChar(name, ' ')
    ensures Find("#" + (" " + name), '#') == 0
  {
    var rest := "#" + (" " + name);
    assert rest[1..] == " " + name && (" " + name)[1..] == name;
  }

  lemma FirstHash(front: string, rest: string)
    requires '#' !in front && Find(rest, '#') == 0 && rest != ""
    ensures var line := front + " " + rest;
            Find(line, '#') == |front| + 1 && line[|front| + 1..] == rest && line[..|front| + 1] == front + " "
  {
    hide Find;
    FindIn(front + " ", '#', rest);
  }

  /** What a printed name is read as: itself when it is good, and otherwise either
      another name or a line that is all data. */
  lemma PrintedComment(front: string, name: string)
    requires '#' !in front && front != "" && front[|front| - 1] != ' ' && name != ""
    ensures SplitComment(front + " # " + name)
            == if '#' in name then (front + " # " + name, "") else (front, Strip(SkipChar(name, ' ')))
  {
    hide Strip, DropSpaces, Find, SkipChar, Trimmed;
    var rest := "#" + (" " + name);
    assert front + " # " + name == front + " " + rest;
    SkipMarks(name);
    FirstHash(front, rest);
    SkipKeepsHash(name);
    DropOneSpace(front);
  }

  lemma NameReadBackIff(name: string)
    requires '#' !in name && name != ""
    ensures Strip(SkipChar(name, ' ')) == name <==> Trimmed(name)
  {
    SkipKeepsHash(name);
    if Trimmed(name) {
      StripTrimmed(name);
    }
  }

  lemma HostPortIsWord(r: Remote)
    requires Printable(r)
    ensures IsWord(HostPort(r))
  {
    var d := PortSuffix(r.port);
    forall i | 0 <= i < |d| ensures !IsSpace(d[i]) && d[i] != '#' {
      if i > 0 {
        assert Decimal.IsDigit(Decimal.Print(r.port.value)[i - 1]);
      }
    }
    var s := HostPort(r);
    forall c | c in s ensures !IsSpace(c) && c != '#' {
      assert c in ProtoMark(r.proto) || c in Address(r.addr) || c in d;
      assert c in Address(r.addr) ==> c == '[' || c == ']' || c in r.addr;
    }
  }

  function Front(r: Remote): string {
    r.match_ + " " + HostPort(r)
  }

  lemma FrontWords(r: Remote, tail: string)
    requires Printable(r) && (tail == "" || tail[0] == ' ')
    ensures Words(Front(r) + tail) == [r.match_, HostPort(r)] + Words(tail)
  {
    HostPortIsWord(r);
    hide HostPort, IsWord, IsSpace, NoSpace, WordEnd;
    var hp := HostPort(r);
    assert IsWord(r.match_) && IsWord(hp);
    WordsOfFront(r.match_, hp, tail);
  }

  lemma WordsOfFront(m: string, hp: string, tail: string)
    requires m != "" && NoSpace(m) && hp != "" && NoSpace(hp) && (tail == "" || tail[0] == ' ')
    ensures Words(m + " " + hp + tail) == [m, hp] + Words(tail)
  {
    hide WordEnd, Words;
    assert m + " " + hp + tail == m + (" " + (hp + tail));
    WordsFirst(m, " " + (hp + tail));
    WordsSkip(hp + tail);
    WordsFirst(hp, tail);
  }

  lemma ParseFront(r: Remote, line: string, comment: string)
    requires Printable(r) && SplitComment(line) == (Front(r), comment)
    ensures Parse(line, "") == match MatchHost(HostPort(r)) case None => ValueError case Some(h) => MakeRemote(comment, r.match_, h)
  {
    hide Words, SplitComment, MatchHost, HostPort, MakeRemote;
    FrontWords(r, "");
    assert Front(r) + "" == Front(r);
    assert Words("") == [] by {
      NoWords();
    }
    assert Words(Front(r)) == [r.match_, HostPort(r)];
  }

  lemma NoWords()
    ensures Words("") == []
  {
  }

  lemma TooManyWords(r: Remote, line: string)
    requires Printable(r) && r.name != "" && line == Front(r) + (" # " + r.name) && SplitComment(line) == (line, "")
    ensures Parse(line, "") == ValueError
  {
    hide Words, SplitComment, MatchHost, HostPort, MakeRemote, Front;
    FrontWords(r, " # " + r.name);
    assert " # " + r.name == " " + ("#" + (" " + r.name));
    WordsSkip("#" + (" " + r.name));
    assert NoSpace("#");
    WordsFirst("#", " " + r.name);
    assert |Words(line)| >= 3;
  }

  /** Making the remote of a match whose parts are the printed ones. */
  lemma MadeIff(r: Remote, name: string, h: HostMatch)
    requires Printable(r) && h.marks == Marks(r.proto) && h.port == TailOf(r.port)
    ensures MakeRemote(name, r.match_, h) == Line(r) <==>
            && name == r.name && r.port != Some(0) && h.addr == r.addr
            && (r.addr[0] == '[' ==> r.addr[|r.addr| - 1] == ']')
  {
    PortReadBackIff(r.port);
  }

  /** What the parser makes of a printed host: the remote itself exactly when its
      address and port can be told from the text. */
  lemma PrintedHostIff(r: Remote, name: string)
    requires Printable(r)
    ensures var m := MatchHost(HostPort(r));
            m.Some? && MakeRemote(name, r.match_, m.value) == Line(r)
            <==> name == r.name && GoodAddress(r.proto, r.addr) && r.port != Some(0)
  {
    hide MatchHost, HostPort, MakeRemote, Find, TailOf, NoSpace;
    if ':' in r.addr {
      MatchPrintedBracketed(r);
      if ']' !in r.addr {
        assert r.addr[|r.addr| - 1] in r.addr;
        MadeIff(r, name, MatchHost(HostPort(r)).value);
      }
    } else if r.addr[0] == '@' && r.proto == "udp" {
      MarkedIsNotUdp(r, name);
    } else {
      MatchPrintedPlain(r);
      if r.addr[0] == '[' {
        PlainAddressIff(r.addr);
      }
      MadeIff(r, name, MatchHost(HostPort(r)).value);
    }
  }

  lemma MarkedIsNotUdp(r: Remote, name: string)
    requires Printable(r) && r.proto == "udp" && ':' !in r.addr && r.addr[0] == '@'
    ensures var m := MatchHost(HostPort(r)); m.Some? ==> MakeRemote(name, r.match_, m.value) != Line(r)
  {
    MarkedAddressIsTcp(r);
    hide HostPort, MatchTail, NoSpace, Find;
  }

  /** Whether a text that starts with a bracket would be taken for a bracketed one. */
  lemma PlainAddressIff(addr: string)
    requires addr != "" && addr[0] == '['
    ensures addr[|addr| - 1] == ']' && ']' in addr[..|addr| - 1]
            <==> addr[|addr| - 1] == ']' && Find(addr, ']') != |addr| - 1
    ensures ']' in addr <==> Find(addr, ']') < |addr|
  {
    FindNone(addr, ']');
    var n := Find(addr, ']');
    if n < |addr| - 1 {
      assert addr[..|addr| - 1][n] == ']';
    } else if n == |addr| - 1 {
      assert addr[..n] == addr[..|addr| - 1];
    }
  }

  lemma PortReadBackIff(port: Option<nat>)
    ensures var t := TailOf(port);
            (if t.Port? then Some(Decimal.Read(t.digits)) else None) == port <==> port != Some(0)
    ensures TailOf(port).Port? ==> Decimal.AllDigits(TailOf(port).digits)
  {
    if port.Some? {
      Decimal.ReadPrint(port.value);
    }
  }

  /** Printing a remote and parsing the line gives the remote back exactly when its
      name is trimmed and without a hash, its port is not zero, and its address can
      be told from its surroundings: with colons, when it has no closing bracket and
      no opening one in front; without, when it does not look marked or bracketed. */
  lemma RoundTripIff(r: Remote)
    requires Printable(r)
    ensures Parse(Print(r), "") == Line(r)
            <==> GoodName(r.name) && GoodAddress(r.proto, r.addr) && r.port != Some(0)
  {
    FrontEnds(r);
    hide HostPort, MatchHost, MakeRemote, SplitComment, NoSpace, Words, Strip;
    if r.name == "" {
      assert Print(r) == Front(r);
      NoComment(Front(r));
      ParseFront(r, Print(r), "");
      PrintedHostIff(r, "");
    } else {
      assert Print(r) == Front(r) + " # " + r.name;
      assert Print(r) == Front(r) + (" # " + r.name);
      PrintedComment(Front(r), r.name);
      if '#' in r.name {
        TooManyWords(r, Print(r));
      } else {
        var comment := Strip(SkipChar(r.name, ' '));
        ParseFront(r, Print(r), comment);
        PrintedHostIff(r, comment);
        NameReadBackIff(r.name);
      }
    }
  }

  lemma FrontEnds(r: Remote)
    requires Printable(r)
    ensures '#' !in Front(r) && Front(r) != "" && Front(r)[|Front(r)| - 1] != ' '
  {
    HostPortIsWord(r);
    hide HostPort;
    var hp := HostPort(r);
    assert hp[|hp| - 1] in hp && Front(r)[|Front(r)| - 1] == hp[|hp| - 1];
  }

  /** The host of a line: its second word, or all of the data when that is one word. */
  function HostOf(line: string): Option<string> {
    var data := SplitComment(line).0;
    var toks := Words(data);
    if |toks| == 1 then Some(data) else if |toks| == 2 then Some(toks[1]) else None
  }

  /** After the marks comes nothing, or a port. */
  predicate NoAddress(host: string) {
    var t := host[CountMarks(host)..];
    (t == "" || t[0] == ':') && !MatchTail(t).NoMatch?
  }

  lemma NoAddressMatches(host: string)
    ensures NoAddress(host) <==> var m := MatchHost(host); m.Some? && !m.value.bracketed && m.value.addr == ""
  {
    hide MatchTail, CountMarks;
    var t := host[CountMarks(host)..];
    if t != "" {
      assert Find(t, ':') == 0 <==> t[0] == ':';
    }
  }

  /** Exactly when parsing raises an attribute error where its callers expect a value
      error: when the host has no address at all. */
  lemma AttributeErrorIff(line: string, name: string)
    ensures Parse(line, name) == AttributeError <==> HostOf(line).Some? && NoAddress(HostOf(line).value)
  {
    hide Words, SplitComment, MatchHost, NoAddress;
    if HostOf(line).Some? {
      NoAddressMatches(HostOf(line).value);
    }
  }

  lemma OnlyPort(mark: string, port: Option<nat>)
    requires mark == "" || mark == "@" || mark == "@@"
    ensures NoAddress(mark + PortSuffix(port))
  {
    hide MatchTail;
    MatchPrintedTail(port);
    var host := mark + PortSuffix(port);
    assert CountMarks(host) == |mark| by { SuffixHasNoMark(port); }
    assert host[|mark|..] == PortSuffix(port);
  }

  lemma SuffixHasNoMark(port: Option<nat>)
    ensures PortSuffix(port) == "" || PortSuffix(port)[0] == ':'
  {
  }

  /** Marks, a port, or both, and nothing else. */
  lemma NoAddressAtAll(match_: string, mark: string, port: Option<nat>, name: string)
    requires IsWord(match_) && (mark == "" || mark == "@" || mark == "@@") && mark + PortSuffix(port) != ""
    ensures Parse(match_ + " " + (mark + PortSuffix(port)), name) == AttributeError
  {
    hide Words, SplitComment, NoAddress, IsSpace, PortSuffix, NoSpace;
    var host := mark + PortSuffix(port);
    var line := match_ + " " + host;
    OnlyPort(mark, port);
    SuffixIsWord(mark, port);
    NoComment(line);
    WordsOfFront(match_, host, "");
    NoWords();
    assert line + "" == line && [match_, host] + [] == [match_, host];
    AttributeErrorIff(line, name);
  }

  lemma SuffixIsWord(mark: string, port: Option<nat>)
    requires mark == "" || mark == "@" || mark == "@@"
    ensures NoSpace(mark + PortSuffix(port)) && '#' !in mark + PortSuffix(port)
  {
    var d := PortSuffix(port);
    forall i | 0 <= i < |d| ensures !IsSpace(d[i]) && d[i] != '#' {
      if i > 0 {
        assert Decimal.IsDigit(Decimal.Print(port.value)[i - 1]);
      }
    }
  }

  /** `*.* @:514` is such a line. */
  lemma NoAddressExists()
    ensures Parse("*.* @:514", "") == AttributeError
  {
    hide Parse, IsWord, PortSuffix;
    StarsAreWord();
    Suffix514();
    NoAddressAtAll("*.*", "@", Some(514), "");
    assert "*.*" + " " + ("@" + ":514") == "*.* @:514";
  }

  lemma StarsAreWord()
    ensures IsWord("*.*")
  {
  }

  lemma Suffix514()
    ensures PortSuffix(Some(514)) == ":514"
  {
    hide Decimal.Print;
    Print514();
  }

  lemma Print514()
    ensures Decimal.Print(514) == "514"
  {
    assert Decimal.Print(5) == "5";
    assert Decimal.Print(51) == "5" + "1";
  }

  lemma ZeroTail()
    ensures MatchTail(":0") == Port("0") && Decimal.Read("0") == 0
  {
    assert ":0"[1..] == "0" && "0"[..0] == "";
    assert ChopNewline(":0") == ":0";
  }

  lemma ZeroHost(proto: string, addr: string)
    requires (proto == "udp" || proto == "tcp") && IsWord(addr) && ':' !in addr && addr[0] != '@' && addr[0] != '['
    ensures MatchHost(ProtoMark(proto) + (addr + ":0")) == Some(HostMatch(Marks(proto), addr, false, Port("0")))
  {
    hide MatchTail, Find, CountMarks, ProtoMark, NoSpace;
    var t := addr + ":0";
    assert t[0] == addr[0];
    CountPrintedMarks(proto, t);
    FindIn(addr, ':', ":0");
    assert Find(":0", ':') == 0 by { FindColon(); }
    assert t[|addr|..] == ":0" && t[..|addr|] == addr;
    ZeroTail();
  }

  lemma FindColon()
    ensures Find(":0", ':') == 0
  {
  }

  lemma ZeroIsWord(proto: string, addr: string)
    requires IsWord(addr)
    ensures IsWord(ProtoMark(proto) + (addr + ":0"))
  {
    var s := ProtoMark(proto) + (addr + ":0");
    forall c | c in s ensures !IsSpace(c) && c != '#' {
      assert c in addr || c == '@' || c == ':' || c == '0';
    }
  }

  /** A line that gives port zero is read as such, and the remote, printed and parsed
      again, has no port. */
  lemma PortZeroIsLost(match_: string, proto: string, addr: string)
    requires IsWord(match_) && (proto == "udp" || proto == "tcp")
    requires IsWord(addr) && ':' !in addr && addr[0] != '@' && addr[0] != '['
    ensures var r := Remote("", match_, proto, addr, Some(0));
            && Parse(match_ + " " + (ProtoMark(proto) + (addr + ":0")), "") == Line(r)
            && Parse(Print(r), "") == Line(r.(port := None))
  {
    hide Words, SplitComment, MatchHost, IsSpace, NoSpace, ProtoMark, Marks, MatchTail;
    var host := ProtoMark(proto) + (addr + ":0");
    var line := match_ + " " + host;
    ZeroIsWord(proto, addr);
    ZeroHost(proto, addr);
    ZeroTail();
    NoComment(line);
    WordsOfFront(match_, host, "");
    NoWords();
    assert line + "" == line;
    assert Words(line) == [match_, host];
    MarksAre(proto);
    PortZeroPrintsAsNone(Remote("", match_, proto, addr, Some(0)));
  }

  lemma MarksAre(proto: string)
    requires proto == "udp" || proto == "tcp"
    ensures Marks(proto) == if proto == "tcp" then 2 else 1
  {
  }

  lemma PortZeroPrintsAsNone(r: Remote)
    requires Printable(r) && GoodName(r.name) && GoodAddress(r.proto, r.addr) && r.port == Some(0)
    ensures Parse(Print(r), "") == Line(r.(port := None))
  {
    hide Parse, NoSpace, GoodAddress, GoodName;
    assert Print(r) == Print(r.(port := None));
    RoundTripIff(r.(port := None));
  }

  /** `*.* @h:0` is such a line. */
  lemma PortZeroExists()
    ensures Parse("*.* @h:0", "") == Line(Remote("", "*.*", "udp", "h", Some(0)))
    ensures Parse(Print(Remote("", "*.*", "udp", "h", Some(0))), "") == Line(Remote("", "*.*", "udp", "h", None))
  {
    hide Parse, Print;
    assert IsWord("*.*") && IsWord("h");
    PortZeroIsLost("*.*", "udp", "h");
    assert "*.*" + " " + (ProtoMark("udp") + ("h" + ":0")) == "*.* @h:0";
  }

  // ---------------------------------------------------------------- what is left out of a line

  /** A host alone matches everything; one mark or none is udp, and two are tcp. */
  lemma HostAlone(mark: string, addr: string, name: string)
    requires (mark == "" || mark == "@" || mark == "@@") && IsWord(addr)
    requires ':' !in addr && addr[0] != '@' && addr[0] != '['
    ensures Parse(mark + addr, name) == Line(Remote(name, "*.*", if mark == "@@" then "tcp" else "udp", addr, None))
  {
    hide Words, SplitComment, MatchAddress, IsSpace, NoSpace;
    var host := mark + addr;
    MarkedWord(mark, addr);
    NoComment(host);
    WordsFirst(host, "");
    NoWords();
    assert host + "" == host && [host] + [] == [host];
    assert CountMarks(host) == |mark| && host[|mark|..] == addr;
    PlainAddress(|mark|, addr, None);
    assert addr + PortSuffix(None) == addr;
  }

  lemma MarkedWord(mark: string, addr: string)
    requires (mark == "" || mark == "@" || mark == "@@") && IsWord(addr)
    ensures IsWord(mark + addr)
  {
  }

  /** A name that the configuration gives counts, whatever the comment says. */
  lemma GivenNameCounts(line: string, name: string)
    requires name != ""
    ensures Parse(line, name) ==
            match Parse(line, "")
            case Line(r) => Line(r.(name := name))
            case ValueError => ValueError
            case AttributeError => AttributeError
  {
    hide Words, SplitComment, MatchHost;
  }
}
