/** Writing command lists as a shell script, with every argument in single quotes. */
module Shellify {
  import opened Options
  import Strings

  /** An entry of the command list: arguments to quote, text to copy, or something
      the script cannot be made from. */
  datatype Command = Args(args: seq<string>) | Text(s: string) | Unsupported

  const HEADER := "#!/bin/sh\n"

  /** `arg.replace("'", "'\\''")` */
  function Escaped(arg: string): string {
    if arg == "" then "" else (if arg[0] == '\'' then "'\\''" else [arg[0]]) + Escaped(arg[1..])
  }

  function Quoted(arg: string): string {
    "'" + Escaped(arg) + "'"
  }

  function QuoteAll(args: seq<string>): seq<string> {
    if args == [] then [] else [Quoted(args[0])] + QuoteAll(args[1..])
  }

  function QuotedArgs(args: seq<string>): string {
    Strings.Join(QuoteAll(args), " ")
  }

  function Line(c: Command): string
    requires !c.Unsupported?
  {
    (if c.Args? then QuotedArgs(c.args) else c.s) + "\n"
  }

  function Body(cmds: seq<Command>): Option<string> {
    if cmds == [] then Some("")
    else if cmds[0].Unsupported? then None
    else
      match Body(cmds[1..])
      case None => None
      case Some(rest) => Some(Line(cmds[0]) + rest)
  }

  lemma BodyStep(cmds: seq<Command>, i: nat)
    requires i < |cmds|
    ensures var rest := Body(cmds[i + 1..]);
            Body(cmds[i..]) == if cmds[i].Unsupported? || rest.None? then None else Some(Line(cmds[i]) + rest.value)
  {
    assert cmds[i..][1..] == cmds[i + 1..];
  }

  lemma NoBody(cmds: seq<Command>)
    ensures Body(cmds[|cmds|..]) == Some("")
  {
  }

  /** The script, `None` when an entry is neither a list nor text. */
  method Shellify(cmds: seq<Command>, addHeader: bool := true) returns (content: Option<string>)
    ensures Body(cmds).None? ==> content == None
    ensures Body(cmds).Some? ==> content == Some((if addHeader then HEADER else "") + Body(cmds).value)
  {
    hide Body, QuotedArgs;
    var text := if addHeader then HEADER else "";
    ghost var start := text;
    assert cmds[0..] == cmds;
    var i := 0;
    while i < |cmds|
      invariant 0 <= i <= |cmds|
      invariant Body(cmds).None? <==> Body(cmds[i..]).None?
      invariant Body(cmds).Some? ==> start + Body(cmds).value == text + Body(cmds[i..]).value
    {
      BodyStep(cmds, i);
      if cmds[i].Unsupported? {
        return None;
      }
      if cmds[i].Args? {
        var fixed := FixArgs(cmds[i].args);
        text := text + (fixed + "\n");
      } else {
        text := text + (cmds[i].s + "\n");
      }
      i := i + 1;
    }
    NoBody(cmds);
    assert text + "" == text;
    return Some(text);
  }

  method FixArgs(args: seq<string>) returns (line: string)
    ensures line == QuotedArgs(args)
  {
    var fixed := [];
    assert args[0..] == args;
    for i := 0 to |args|
      invariant fixed + QuoteAll(args[i..]) == QuoteAll(args)
    {
      assert args[i..][1..] == args[i + 1..] && args[i..][0] == args[i];
      fixed := fixed + [Quoted(args[i])];
    }
    assert fixed + [] == fixed;
    line := Strings.Join(fixed, " ");
  }

  // ---------------------------------------------------------------- reading it as a shell does

  datatype Token = Word(s: string) | Newline

  /** Where a shell is in its input: between tokens, in an unquoted word, in single
      quotes, right after an unquoted backslash, or in a comment. */
  datatype Mode = Between | InWord | InQuotes | Escaping(inWord: bool) | InComment

  /** The tokens a shell reads, by the rules for backslash and single quotes of
      sections 2.2.1 and 2.2.2 of the POSIX Shell Command Language, and for blanks,
      newlines and comments of section 2.3. `word` is the word read so far. */
  function Lex(s: string, mode: Mode, word: string): seq<Token> {
    if s == "" then (if mode.Between? || mode.InComment? then [] else [Word(word)])
    else
      var c, rest := s[0], s[1..];
      match mode
      case InQuotes => if c == '\'' then Lex(rest, InWord, word) else Lex(rest, InQuotes, word + [c])
      case Escaping(inWord) =>
        if c == '\n' then Lex(rest, if inWord then InWord else Between, word) else Lex(rest, InWord, word + [c])
      case InComment => if c == '\n' then [Newline] + Lex(rest, Between, "") else Lex(rest, InComment, "")
      case _ =>
        if c == '\'' then Lex(rest, InQuotes, word)
        else if c == '\\' then Lex(rest, Escaping(mode.InWord?), word)
        else if c == '\n' then (if mode.InWord? then [Word(word)] else []) + [Newline] + Lex(rest, Between, "")
        else if c == ' ' || c == '\t' then (if mode.InWord? then [Word(word)] else []) + Lex(rest, Between, "")
        else if c == '#' && mode.Between? then Lex(rest, InComment, "")
        else Lex(rest, InWord, word + [c])
  }

  function Words(args: seq<string>): seq<Token> {
    seq(|args|, i requires 0 <= i < |args| => Word(args[i]))
  }

  function LineTokens(args: seq<string>): seq<Token> {
    Words(args) + [Newline]
  }

  function AllTokens(cmds: seq<seq<string>>): seq<Token> {
    if cmds == [] then [] else LineTokens(cmds[0]) + AllTokens(cmds[1..])
  }

  function AsArgs(cmds: seq<seq<string>>): seq<Command> {
    seq(|cmds|, i requires 0 <= i < |cmds| => Args(cmds[i]))
  }

  /** Inside quotes, escaped text is read as the text, up to the closing quote. */
  lemma {:induction false} LexEscaped(arg: string, rest: string, word: string)
    ensures Lex(Escaped(arg) + "'" + rest, InQuotes, word) == Lex(rest, InWord, word + arg)
  {
    var s := Escaped(arg) + "'" + rest;
    if arg == "" {
      assert s == "'" + rest && s[1..] == rest;
      assert word + arg == word;
    } else {
      var tail := Escaped(arg[1..]) + "'" + rest;
      assert word + arg == word + [arg[0]] + arg[1..];
      LexEscaped(arg[1..], rest, word + [arg[0]]);
      if arg[0] == '\'' {
        assert s == "'\\''" + tail;
        LexQuoteEscape(tail, word);
      } else {
        assert s == [arg[0]] + tail && s[1..] == tail;
      }
    }
  }

  /** Closing the quotes, an escaped quote, and opening them again. */
  lemma LexQuoteEscape(tail: string, word: string)
    ensures Lex("'\\''" + tail, InQuotes, word) == Lex(tail, InQuotes, word + "'")
  {
    var s := "'\\''" + tail;
    assert s[1..] == "\\''" + tail && s[1..][1..] == "''" + tail && s[1..][1..][1..] == "'" + tail;
    assert s[1..][1..][1..][1..] == tail;
    assert Lex(s, InQuotes, word) == Lex("\\''" + tail, InWord, word);
    assert Lex("\\''" + tail, InWord, word) == Lex("''" + tail, Escaping(true), word);
    assert Lex("''" + tail, Escaping(true), word) == Lex("'" + tail, InWord, word + "'");
  }

  lemma LexQuoted(arg: string, rest: string)
    ensures Lex(Quoted(arg) + rest, Between, "") == Lex(rest, InWord, arg)
  {
    var s := Quoted(arg) + rest;
    assert s[1..] == Escaped(arg) + "'" + rest;
    LexEscaped(arg, rest, "");
    assert "" + arg == arg;
  }

  lemma JoinQuoted(args: seq<string>)
    requires args != []
    ensures QuotedArgs(args) == Quoted(args[0]) + if |args| == 1 then "" else " " + QuotedArgs(args[1..])
  {
    var q := QuoteAll(args);
    assert q[1..] == QuoteAll(args[1..]);
    if |args| > 1 {
      assert QuoteAll(args[1..]) != [];
    }
  }

  lemma {:induction false} LexArgs(args: seq<string>, rest: string)
    ensures Lex(QuotedArgs(args) + "\n" + rest, Between, "") == LineTokens(args) + Lex(rest, Between, "")
  {
    var s := QuotedArgs(args) + "\n" + rest;
    if args == [] {
      assert s == "\n" + rest && s[1..] == rest;
      assert LineTokens(args) == [Newline];
    } else {
      JoinQuoted(args);
      var after := if |args| == 1 then "\n" + rest else " " + (QuotedArgs(args[1..]) + "\n" + rest);
      assert s == Quoted(args[0]) + after;
      LexQuoted(args[0], after);
      assert LineTokens(args) == [Word(args[0])] + LineTokens(args[1..]);
      if |args| == 1 {
        assert after[1..] == rest && LineTokens(args[1..]) == [Newline];
      } else {
        assert after[1..] == QuotedArgs(args[1..]) + "\n" + rest;
        LexArgs(args[1..], rest);
      }
    }
  }

  /** A shell reads from the script exactly the arguments that went into it, one
      command a line, whatever quotes, blanks and newlines they hold. */
  lemma {:induction false} ShellReadsArguments(cmds: seq<seq<string>>)
    ensures Body(AsArgs(cmds)).Some?
    ensures Lex(Body(AsArgs(cmds)).value, Between, "") == AllTokens(cmds)
  {
    if cmds != [] {
      ShellReadsArguments(cmds[1..]);
      assert AsArgs(cmds)[1..] == AsArgs(cmds[1..]);
      LexArgs(cmds[0], Body(AsArgs(cmds[1..])).value);
      assert Body(AsArgs(cmds)).value == QuotedArgs(cmds[0]) + "\n" + Body(AsArgs(cmds[1..])).value;
    }
  }

  /** The header line is a comment to the shell. */
  lemma HeaderIsComment(rest: string)
    ensures Lex(HEADER + rest, Between, "") == [Newline] + Lex(rest, Between, "")
  {
    assert HEADER == "#" + ("!/bin/sh" + "\n");
    assert HEADER + rest == "#" + ("!/bin/sh" + "\n" + rest);
    assert (HEADER + rest)[1..] == "!/bin/sh" + "\n" + rest;
    CommentRuns("!/bin/sh", rest);
  }

  lemma {:induction false} CommentRuns(text: string, rest: string)
    requires '\n' !in text
    ensures Lex(text + "\n" + rest, InComment, "") == [Newline] + Lex(rest, Between, "")
  {
    var s := text + "\n" + rest;
    if text == "" {
      assert s[1..] == rest;
    } else {
      assert text[0] in text && s[1..] == text[1..] + "\n" + rest;
      CommentRuns(text[1..], rest);
    }
  }

  // ---------------------------------------------------------------- entries that are text

  lemma {:induction false} BodyOfBoth(a: seq<Command>, b: seq<Command>)
    ensures Body(a + b) == if Body(a).None? || Body(b).None? then None else Some(Body(a).value + Body(b).value)
  {
    hide Line;
    if a == [] {
      assert a + b == b;
      assert Body(b).Some? ==> "" + Body(b).value == Body(b).value;
    } else {
      assert (a + b)[1..] == a[1..] + b;
      BodyOfBoth(a[1..], b);
      if Body(a).Some? && Body(b).Some? {
        assert Line(a[0]) + (Body(a[1..]).value + Body(b).value) == Line(a[0]) + Body(a[1..]).value + Body(b).value;
      }
    }
  }

  /** Text is copied as it is, on a line of its own, between what comes before and after it. */
  lemma TextIsCopied(a: seq<Command>, s: string, b: seq<Command>)
    ensures Body(a + [Text(s)] + b)
            == if Body(a).None? || Body(b).None? then None else Some(Body(a).value + s + "\n" + Body(b).value)
  {
    hide Body;
    BodyOfBoth(a, [Text(s)]);
    BodyOfBoth(a + [Text(s)], b);
    OneText(s);
    if Body(a).Some? && Body(b).Some? {
      assert Body(a).value + (s + "\n") == Body(a).value + s + "\n";
    }
  }

  lemma OneText(s: string)
    ensures Body([Text(s)]) == Some(s + "\n")
  {
    assert [Text(s)][1..] == [] && s + "\n" + "" == s + "\n";
  }

  /** One entry that is neither is enough to raise. */
  lemma UnsupportedRaisesIff(cmds: seq<Command>)
    ensures Body(cmds).None? <==> Unsupported in cmds
  {
    hide Line;
    if cmds != [] {
      UnsupportedRaisesIff(cmds[1..]);
      assert cmds == [cmds[0]] + cmds[1..];
    }
  }
}
