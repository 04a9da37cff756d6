/** How a configuration or a header says which mergers to apply: the string form
    `name(option,option)+name(...)`, the list form, and the merger each one names. */
module MergerOptions {
  import opened Strings
  import opened Options
  import opened Values
  import opened Mergers

  datatype Parsed = Parsed(name: Value, opts: Value)

  // ---------------------------------------------------------------- string form

  predicate IsLetter(c: char) {
    'a' <= c <= 'z' || 'A' <= c <= 'Z' || c == '_'
  }

  predicate IsNameChar(c: char) {
    IsLetter(c) || '0' <= c <= '9'
  }

  /** The length of the longest prefix of name characters. */
  function NameEnd(s: string): (n: nat)
    ensures n <= |s| && (forall c :: c in s[..n] ==> IsNameChar(c)) && (n < |s| ==> !IsNameChar(s[n]))
  {
    if s == "" || !IsNameChar(s[0]) then 0
    else
      assert s[..1 + NameEnd(s[1..])] == [s[0]] + s[1..][..NameEnd(s[1..])];
      1 + NameEnd(s[1..])
  }

  /** Matches `name(body)`: the body runs to the last character and has no newline. */
  function MatchCall(s: string): Option<(string, string)> {
    var n := NameEnd(s);
    if n > 0 && IsLetter(s[0]) && |s| >= n + 2 && s[n] == '(' && s[|s| - 1] == ')' && '\n' !in s[n + 1..|s| - 1] then
      Some((s[..n], s[n + 1..|s| - 1]))
    else
      None
  }

  /** The non-blank options between the commas. */
  function CleanOptions(ops: seq<string>): seq<Value> {
    if ops == [] then []
    else (if Strip(ops[0]) == "" then [] else [Str(Lower(Strip(ops[0])))]) + CleanOptions(ops[1..])
  }

  /** The form in which a merger name is looked up. */
  function Canonical(piece: string): string {
    ReplaceChar(Strip(Lower(piece)), '-', '_')
  }

  function OptionsOf(body: string): Value {
    List(CleanOptions(Split(Strip(body), ',')))
  }

  datatype Piece = Blank | Bad | Good(p: Parsed)

  function ExtractPiece(piece: string): Piece {
    var name := Canonical(piece);
    if name == "" then Blank
    else
      match MatchCall(name)
      case None => Bad
      case Some((id, body)) => Good(Parsed(Str(id), OptionsOf(body)))
  }

  function ExtractPieces(pieces: seq<string>): Option<seq<Parsed>> {
    if pieces == [] then Some([])
    else
      match ExtractPiece(pieces[0])
      case Blank => ExtractPieces(pieces[1..])
      case Bad => None
      case Good(p) =>
        match ExtractPieces(pieces[1..])
        case None => None
        case Some(rest) => Some([p] + rest)
  }

  /** `string_extract_mergers`; `None` when a piece is not in the right format. */
  function StringExtract(s: string): Option<seq<Parsed>> {
    ExtractPieces(Split(s, '+'))
  }

  // ---------------------------------------------------------------- list form

  predicate Truthy(v: Value) {
    match v
    case Null => false
    case Bool(b) => b
    case Int(i) => i != 0
    case Str(s) => s != ""
    case List(xs) => xs != []
    case Dict(d) => d != map[]
  }

  /** One entry of the list form; `None` when reading it raises. */
  function ExtractEntry(v: Value): Option<Parsed> {
    match v
    case Dict(d) =>
      if "name" in d && d["name"].Str? && "settings" in d then
        Some(Parsed(Str(Strip(ReplaceChar(d["name"].s, '-', '_'))), d["settings"]))
      else None
    case List(xs) => if xs == [] then None else Some(Parsed(xs[0], List(xs[1..])))
    case Str(s) => if s == "" then None else Some(Parsed(Str(s[..1]), if |s| >= 2 then Str(s[1..]) else List([])))
    case _ => None
  }

  function ExtractEntries(vs: seq<Value>): Option<seq<Parsed>> {
    if vs == [] then Some([])
    else
      match (ExtractEntry(vs[0]), ExtractEntries(vs[1..]))
      case (Some(p), Some(rest)) => Some((if Truthy(p.name) then [p] else []) + rest)
      case _ => None
  }

  /** Takes `merge_how` out of the configuration or, when that is absent or null,
      `merge_type` as well, and reads the mergers it names. */
  function DictExtract(h: Host, config: Config): (r: (Config, Option<seq<Parsed>>)) {
    var how := if "merge_how" in config then config["merge_how"] else Null;
    var rest := config - {"merge_how"};
    var raw := if !how.Null? then how else if "merge_type" in rest then rest["merge_type"] else Null;
    var left := if how.Null? then rest - {"merge_type"} else rest;
    (left,
     if raw.Null? then Some([])
     else if raw.Str? then StringExtract(raw.s)
     else
       match Items(h, raw)
       case None => None
       case Some(vs) => ExtractEntries(vs))
  }

  // ---------------------------------------------------------------- construction

  /** `o in opts`; `None` when `opts` is not a container. */
  function HasOption(opts: Value, o: string): Option<bool> {
    match opts
    case List(xs) => Some(Str(o) in xs)
    case Str(s) => Some(Contains(s, o))
    case Dict(d) => Some(o in d)
    case _ => None
  }

  function Has(opts: Value, o: string): bool {
    HasOption(opts, o) == Some(true)
  }

  function ListMethodOf(opts: Value): ListMethod {
    if Has(opts, "append") then Append
    else if Has(opts, "prepend") then Prepend
    else if Has(opts, "replace") then Replace
    else if Has(opts, "no_replace") then NoReplace
    else Replace
  }

  function ConstructOne(p: Parsed): Option<Merger> {
    if !p.name.Str? || HasOption(p.opts, "").None? then None
    else
      var name := if StartsWith(p.name.s, "m_") then p.name.s else "m_" + p.name.s;
      var recurseArray := Has(p.opts, "recurse_array") || Has(p.opts, "recurse_list");
      if name == "m_dict" then
        Some(DictMerger(Has(p.opts, "replace"), Has(p.opts, "recurse_str"), recurseArray, Has(p.opts, "allow_delete")))
      else if name == "m_list" then
        Some(ListMerger(ListMethodOf(p.opts), Has(p.opts, "recurse_str"), Has(p.opts, "recurse_dict"), recurseArray))
      else if name == "m_str" then
        Some(StrMerger(Has(p.opts, "append")))
      else None
  }

  /** The merger objects, in lookup order; `None` when one cannot be made. */
  function Construct(ps: seq<Parsed>): Option<seq<Merger>> {
    if ps == [] then Some([])
    else
      match (ConstructOne(ps[0]), Construct(ps[1..]))
      case (Some(m), Some(ms)) => Some([m] + ms)
      case _ => None
  }

  // ---------------------------------------------------------------- the loops that read and construct

  lemma ExtractStep(pieces: seq<string>, i: nat)
    requires i < |pieces|
    ensures var rest := ExtractPieces(pieces[i + 1..]);
            ExtractPieces(pieces[i..]) ==
            match ExtractPiece(pieces[i])
            case Blank => rest
            case Bad => None
            case Good(p) => if rest.None? then None else Some([p] + rest.value)
  {
    hide ExtractPiece;
    assert pieces[i..][1..] == pieces[i + 1..];
  }

  method StringExtractMergers(mergeHow: string) returns (r: Option<seq<Parsed>>)
    ensures r == StringExtract(mergeHow)
  {
    hide ExtractPieces, Split, Canonical, OptionsOf, MatchCall;
    var parsed: seq<Parsed> := [];
    var pieces := Split(mergeHow, '+');
    assert pieces[0..] == pieces;
    for i := 0 to |pieces|
      invariant ExtractPieces(pieces).None? <==> ExtractPieces(pieces[i..]).None?
      invariant ExtractPieces(pieces).Some? ==> ExtractPieces(pieces).value == parsed + ExtractPieces(pieces[i..]).value
    {
      ExtractStep(pieces, i);
      var name := Canonical(pieces[i]);
      if name == "" {
        continue;
      }
      var match_ := MatchCall(name);
      if match_.None? {
        return None;
      }
      parsed := parsed + [Parsed(Str(match_.value.0), OptionsOf(match_.value.1))];
    }
    NoPieces(pieces);
    assert parsed + [] == parsed;
    return Some(parsed);
  }

  lemma NoPieces(pieces: seq<string>)
    ensures ExtractPieces(pieces[|pieces|..]) == Some([])
  {
  }

  lemma EntriesStep(vs: seq<Value>, i: nat)
    requires i < |vs|
    ensures var rest := ExtractEntries(vs[i + 1..]);
            ExtractEntries(vs[i..]) ==
            match ExtractEntry(vs[i])
            case None => None
            case Some(p) => if rest.None? then None else Some((if Truthy(p.name) then [p] else []) + rest.value)
  {
    hide ExtractEntry, Truthy;
    assert vs[i..][1..] == vs[i + 1..];
  }

  lemma NoEntries(vs: seq<Value>)
    ensures ExtractEntries(vs[|vs|..]) == Some([])
  {
  }

  method DictExtractMergers(h: Host, config: Config) returns (left: Config, r: Option<seq<Parsed>>)
    ensures (left, r) == DictExtract(h, config)
  {
    hide ExtractEntry, ExtractEntries, StringExtract, Truthy, Items;
    var raw := if "merge_how" in config then config["merge_how"] else Null;
    left := config - {"merge_how"};
    if raw.Null? {
      raw := if "merge_type" in left then left["merge_type"] else Null;
      left := left - {"merge_type"};
    }
    if raw.Null? {
      return left, Some([]);
    }
    if raw.Str? {
      r := StringExtractMergers(raw.s);
      return left, r;
    }
    var items := Items(h, raw);
    if items.None? {
      return left, None;
    }
    var vs, parsed: seq<Parsed> := items.value, [];
    assert vs[0..] == vs;
    for i := 0 to |vs|
      invariant ExtractEntries(vs).None? <==> ExtractEntries(vs[i..]).None?
      invariant ExtractEntries(vs).Some? ==> ExtractEntries(vs).value == parsed + ExtractEntries(vs[i..]).value
    {
      EntriesStep(vs, i);
      var entry := ExtractEntry(vs[i]);
      if entry.None? {
        return left, None;
      }
      if Truthy(entry.value.name) {
        parsed := parsed + [entry.value];
      }
    }
    NoEntries(vs);
    assert parsed + [] == parsed;
    return left, Some(parsed);
  }

  lemma ConstructStep(ps: seq<Parsed>, i: nat)
    requires i < |ps|
    ensures var m, rest := ConstructOne(ps[i]), Construct(ps[i + 1..]);
            Construct(ps[i..]) == if m.None? || rest.None? then None else Some([m.value] + rest.value)
  {
    hide ConstructOne;
    assert ps[i..][1..] == ps[i + 1..];
  }

  lemma NothingToConstruct(ps: seq<Parsed>)
    ensures Construct(ps[|ps|..]) == Some([])
  {
  }

  method ConstructMergers(ps: seq<Parsed>) returns (r: Option<seq<Merger>>)
    ensures r == Construct(ps)
  {
    hide ConstructOne, Construct;
    var mergers: seq<Merger> := [];
    assert ps[0..] == ps;
    for i := 0 to |ps|
      invariant Construct(ps).None? <==> Construct(ps[i..]).None?
      invariant Construct(ps).Some? ==> Construct(ps).value == mergers + Construct(ps[i..]).value
    {
      ConstructStep(ps, i);
      var m := ConstructOne(ps[i]);
      if m.None? {
        return None;
      }
      mergers := mergers + [m.value];
    }
    NothingToConstruct(ps);
    assert mergers + [] == mergers;
    return Some(mergers);
  }

  // ---------------------------------------------------------------- printing and reading back

  datatype Spec = Spec(name: string, opts: seq<string>)

  /** A lower-case character that the string form does not give a meaning. */
  predicate IsPlain(c: char) {
    c != '+' && c != '-' && c != ',' && c != '\n' && !('A' <= c <= 'Z')
  }

  predicate GoodSpec(p: Spec) {
    && p.name != "" && IsLetter(p.name[0]) && (forall c :: c in p.name ==> IsNameChar(c) && IsPlain(c))
    && (forall o :: o in p.opts ==> GoodOption(o))
  }

  predicate GoodOption(o: string) {
    o != "" && Trimmed(o) && forall c :: c in o ==> IsPlain(c)
  }

  function Print(p: Spec): string {
    p.name + "(" + Join(p.opts, ",") + ")"
  }

  function PrintAll(ps: seq<Spec>): seq<string> {
    seq(|ps|, i requires 0 <= i < |ps| => Print(ps[i]))
  }

  function Strs(ss: seq<string>): seq<Value> {
    seq(|ss|, i requires 0 <= i < |ss| => Str(ss[i]))
  }

  function ParsedOf(p: Spec): Parsed {
    Parsed(Str(p.name), List(Strs(p.opts)))
  }

  function AsParsed(ps: seq<Spec>): seq<Parsed> {
    seq(|ps|, i requires 0 <= i < |ps| => ParsedOf(ps[i]))
  }

  lemma {:induction false} JoinChars(parts: seq<string>, c: char, d: char)
    requires d in Join(parts, [c])
    ensures d == c || exists p :: p in parts && d in p
  {
    if |parts| > 1 {
      assert Join(parts, [c]) == parts[0] + [c] + Join(parts[1..], [c]);
      if d in parts[0] {
      } else if d != c {
        JoinChars(parts[1..], c, d);
        var p :| p in parts[1..] && d in p;
        assert p in parts;
      }
    } else if |parts| == 1 {
      assert parts[0] in parts && d in parts[0];
    }
  }

  lemma {:induction false} NameEndOf(name: string, rest: string)
    requires forall c :: c in name ==> IsNameChar(c)
    requires rest != "" && !IsNameChar(rest[0])
    ensures NameEnd(name + rest) == |name|
  {
    if name == "" {
      assert name + rest == rest;
    } else {
      assert (name + rest)[1..] == name[1..] + rest;
      NameEndOf(name[1..], rest);
    }
  }

  lemma {:induction false} CleanOptionsKeeps(ops: seq<string>)
    requires forall o :: o in ops ==> GoodOption(o)
    ensures CleanOptions(ops) == Strs(ops)
  {
    if ops != [] {
      assert GoodOption(ops[0]);
      assert Lower(Strip(ops[0])) == ops[0] by {
        StripTrimmed(ops[0]);
        LowerKeeps(ops[0]);
      }
      CleanOptionsKeeps(ops[1..]);
      assert Strs(ops) == [Str(ops[0])] + Strs(ops[1..]);
    }
  }

  lemma LowerKeeps(s: string)
    requires forall c :: c in s ==> !('A' <= c <= 'Z')
    ensures Lower(s) == s
  {
    forall i | 0 <= i < |s| ensures Lower(s)[i] == s[i] {
      assert s[i] in s;
    }
  }

  lemma ReplaceKeeps(s: string, a: char, b: char)
    requires a !in s
    ensures ReplaceChar(s, a, b) == s
  {
    forall i | 0 <= i < |s| ensures ReplaceChar(s, a, b)[i] == s[i] {
      assert s[i] in s;
    }
  }

  lemma PrintChars(p: Spec, c: char)
    requires GoodSpec(p) && c in Print(p)
    ensures c == ',' || c == '(' || c == ')' || IsPlain(c)
  {
    var body := Join(p.opts, ",");
    assert Print(p) == p.name + ['('] + body + [')'];
    if c in body {
      JoinChars(p.opts, ',', c);
      assert forall o :: o in p.opts && c in o ==> GoodOption(o);
    }
  }

  /** Lowering, stripping and replacing dashes leaves a printed entry alone. */
  lemma PrintIsCanonical(p: Spec)
    requires GoodSpec(p)
    ensures Canonical(Print(p)) == Print(p)
    ensures '+' !in Print(p)
  {
    var s := Print(p);
    forall c | c in s ensures c != '+' && c != '-' && !('A' <= c <= 'Z') {
      PrintChars(p, c);
    }
    LowerKeeps(s);
    assert p.name[0] in p.name;
    assert s[0] == p.name[0] && s[|s| - 1] == ')';
    StripTrimmed(s);
    ReplaceKeeps(s, '-', '_');
  }

  lemma MatchPrinted(p: Spec)
    requires GoodSpec(p)
    ensures MatchCall(Print(p)) == Some((p.name, Join(p.opts, ",")))
  {
    var s, body := Print(p), Join(p.opts, ",");
    assert s == p.name + ("(" + body + ")");
    NameEndOf(p.name, "(" + body + ")");
    assert s[0] == p.name[0];
    assert s[|p.name| + 1..|s| - 1] == body;
    forall c | c in body ensures c != '\n' {
      JoinChars(p.opts, ',', c);
      assert forall o :: o in p.opts ==> GoodOption(o);
    }
  }

  lemma JoinTrimmed(ops: seq<string>)
    requires forall o :: o in ops ==> GoodOption(o)
    ensures Trimmed(Join(ops, ","))
    ensures ops != [] ==> Join(ops, ",") != ""
  {
    if ops != [] {
      assert GoodOption(ops[0]);
      if |ops| > 1 {
        JoinTrimmed(ops[1..]);
        assert GoodOption(ops[1]);
        var rest := Join(ops[1..], ",");
        assert Join(ops, ",") == ops[0] + "," + rest;
        assert Join(ops, ",")[|Join(ops, ",")| - 1] == rest[|rest| - 1];
      }
    }
  }

  lemma OptionsReadBack(ops: seq<string>)
    requires forall o :: o in ops ==> GoodOption(o)
    ensures OptionsOf(Join(ops, ",")) == List(Strs(ops))
  {
    JoinTrimmed(ops);
    StripTrimmed(Join(ops, ","));
    if ops == [] {
      assert Strip("") == "";
      assert Split("", ',') == [""];
      assert CleanOptions([""]) == [];
    } else {
      forall o | o in ops ensures ',' !in o {
        assert GoodOption(o);
      }
      SplitJoined(ops, ',');
      CleanOptionsKeeps(ops);
    }
  }

  lemma PieceReadsBack(p: Spec)
    requires GoodSpec(p)
    ensures ExtractPiece(Print(p)) == Good(ParsedOf(p))
  {
    PrintIsCanonical(p);
    MatchPrinted(p);
    OptionsReadBack(p.opts);
  }

  lemma ConsAll(ps: seq<Spec>)
    requires ps != []
    ensures AsParsed(ps) == [ParsedOf(ps[0])] + AsParsed(ps[1..])
    ensures PrintAll(ps) == [Print(ps[0])] + PrintAll(ps[1..])
  {
  }

  lemma {:induction false} PiecesReadBack(ps: seq<Spec>)
    requires forall p :: p in ps ==> GoodSpec(p)
    ensures ExtractPieces(PrintAll(ps)) == Some(AsParsed(ps))
  {
    if ps == [] {
      assert PrintAll(ps) == [] && AsParsed(ps) == [];
    } else {
      assert ps[0] in ps;
      PieceReadsBack(ps[0]);
      PiecesReadBack(ps[1..]);
      ConsAll(ps);
      assert PrintAll(ps)[1..] == PrintAll(ps[1..]);
    }
  }

  /** Writing merger names and options in the string form and reading them back
      gives the same names and options, in the same order. */
  lemma StringFormRoundTrip(ps: seq<Spec>)
    requires forall p :: p in ps ==> GoodSpec(p)
    ensures StringExtract(Join(PrintAll(ps), "+")) == Some(AsParsed(ps))
  {
    if ps == [] {
      NothingReadBack();
      assert PrintAll(ps) == [] && AsParsed(ps) == [];
    } else {
      hide Print, GoodSpec, ExtractPieces, Split, Join;
      forall piece | piece in PrintAll(ps) ensures '+' !in piece {
        var p :| p in ps && piece == Print(p);
        PrintHasNoPlus(p);
      }
      SplitJoined(PrintAll(ps), '+');
      PiecesReadBack(ps);
    }
  }

  lemma NothingReadBack()
    ensures StringExtract(Join([], "+")) == Some([])
  {
    hide ExtractPiece;
    BlankPiece();
    assert Split("", '+') == [""];
    assert [""][1..] == [];
    assert ExtractPieces([""]) == ExtractPieces([]);
  }

  lemma BlankPiece()
    ensures ExtractPiece("") == Blank
  {
  }

  lemma PrintHasNoPlus(p: Spec)
    requires GoodSpec(p)
    ensures '+' !in Print(p)
  {
    PrintIsCanonical(p);
  }
}
